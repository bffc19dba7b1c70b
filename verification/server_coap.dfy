/**
 * The server's CoAP side: the stored wifi and presence status with its
 * setters, the payloads of the three status resources and of the commands
 * acknowledgement, and the type/code/send-result gating of the four request
 * handlers. The OpenThread calls are outcomes: `sent` says whether building
 * and sending the response returned no error.
 */
module ServerCoap {
  import opened Wrappers
  import opened CStrings
  import opened WireCodec
  import opened Mesh

  /** Capacity of the commands buffer `msg_buf`. */
  const MSG_BUFF_SIZE: nat := 2000

  /** A request as the handlers see it: type, code and payload bytes. */
  datatype Incoming = Incoming(kind: CoapType, code: CoapCode, payload: seq<char>)

  /** The application callbacks; the commands callback receives the buffer contents and the length. */
  datatype Callback =
    | OnRessourcesStatusRequest
    | OnWifiStatusRequest
    | OnPresenceStatusRequest
    | OnCommandsRequest(msg: seq<char>, len: nat)

  /** What a handler did: the response payload it built, if any, and the callback it invoked, if any. */
  datatype Handled = Handled(response: Option<seq<char>>, callback: Option<Callback>)

  /** The status resources answer only a non-confirmable GET. */
  predicate IsStatusRequest(req: Incoming) {
    req.kind == NonConfirmable && req.code == Get
  }

  /** The commands resource accepts only a non-confirmable PUT. */
  predicate IsCommandsRequest(req: Incoming) {
    req.kind == NonConfirmable && req.code == Put
  }

  predicate IsStatusUri(uri: Uri) {
    uri.RessourcesUri? || uri.WifiUri? || uri.PresenceUri?
  }

  /** The response payload of a status resource. */
  function StatusResponse(uri: Uri, s: Status): seq<char>
    requires IsStatusUri(uri)
  {
    match uri
    case RessourcesUri => RessourcesPayload(s)
    case WifiUri => WifiPayload(s.wifi)
    case PresenceUri => PresencePayload(s.presence)
  }

  /**
   * The ressources, wifi and presence handlers. Whichever of the three it
   * is, a successful send invokes the ressources-status callback.
   */
  function HandleStatusRequest(uri: Uri, s: Status, req: Incoming, sent: bool): (h: Handled)
    requires IsStatusUri(uri)
    ensures h.response.Some? <==> IsStatusRequest(req)
    ensures h.response.Some? ==> h.response.value == StatusResponse(uri, s)
    ensures h.callback.Some? <==> IsStatusRequest(req) && sent
    ensures h.callback.Some? ==> h.callback.value == OnRessourcesStatusRequest
  {
    if !IsStatusRequest(req) then Handled(None, None)
    else Handled(Some(StatusResponse(uri, s)), if sent then Some(OnRessourcesStatusRequest) else None)
  }

  /** How many payload bytes `otMessageRead` copies into `msg_buf`. */
  function ReadLength(payload: seq<char>): (n: nat)
    ensures n <= |payload| && n <= MSG_BUFF_SIZE
    ensures n == |payload| || n == MSG_BUFF_SIZE
  {
    if |payload| <= MSG_BUFF_SIZE then |payload| else MSG_BUFF_SIZE
  }

  /**
   * The commands handler: anything but a non-confirmable PUT is dropped;
   * otherwise "CMD:OK" is answered whatever the payload, and only after a
   * successful send is the payload read and forwarded. The callback takes
   * its length as one byte, so it receives the read length modulo 256.
   */
  function HandleCommands(req: Incoming, sent: bool): (h: Handled)
    ensures h.response.Some? <==> IsCommandsRequest(req)
    ensures h.response.Some? ==> h.response.value == AckPayload()
    ensures h.callback.Some? <==> IsCommandsRequest(req) && sent
    ensures h.callback.Some? ==> h.callback.value.OnCommandsRequest?
    ensures h.callback.Some? ==>
              var n := ReadLength(req.payload);
              h.callback.value.msg == req.payload[..n] && h.callback.value.len == n % 256
  {
    if !IsCommandsRequest(req) then Handled(None, None)
    else if !sent then Handled(Some(AckPayload()), None)
    else
      var n := ReadLength(req.payload);
      Handled(Some(AckPayload()), Some(OnCommandsRequest(req.payload[..n], n % 256)))
  }

  /** The bytes the commands callback forwards: the first `len` bytes of the buffer. */
  function Forwarded(cb: Callback): seq<char>
    requires cb.OnCommandsRequest? && cb.len <= |cb.msg|
  {
    cb.msg[..cb.len]
  }

  /**
   * A forwarded command is a prefix of the request payload, and the whole
   * payload when it is shorter than 256 bytes.
   */
  lemma ForwardedCommand(req: Incoming)
    requires IsCommandsRequest(req)
    ensures var cb := HandleCommands(req, true).callback.value;
            cb.len <= |cb.msg| &&
            Forwarded(cb) <= req.payload &&
            (|req.payload| < 256 ==> Forwarded(cb) == req.payload)
  {
    var n := ReadLength(req.payload);
    assert req.payload[..n][..n % 256] == req.payload[..n % 256];
  }

  /** Every response is a C string: its size is its string length plus the NUL. */
  lemma ResponseSizes(uri: Uri, s: Status)
    requires IsStatusUri(uri)
    ensures var p := StatusResponse(uri, s);
            CStr(p) == p[..|p| - 1] &&
            |p| == (match uri case RessourcesUri => 13 case WifiUri => 7 case PresenceUri => 6)
    ensures CStr(AckPayload()) == ACK_TOKEN && |AckPayload()| == 7
  {
    var p := StatusResponse(uri, s);
    DigitReads(s.wifi);
    DigitReads(s.presence);
    var pre := match uri
      case RessourcesUri => "wifi:" + [Digit(s.wifi)] + " prs:" + [Digit(s.presence)]
      case WifiUri => "wifi:" + [Digit(s.wifi)]
      case PresenceUri => "prs:" + [Digit(s.presence)];
    assert p == pre + [NUL];
    Terminated(pre, p);
    Terminated(ACK_TOKEN, AckPayload());
  }

  /** A NUL-free string followed by its NUL holds exactly that string as its C string. */
  lemma Terminated(pre: seq<char>, p: seq<char>)
    requires NUL !in pre && p == pre + [NUL]
    ensures CStr(p) == p[..|p| - 1] == pre
  {
    CStrTerminated(pre);
  }

  /** `srv_context` and the commands buffer. */
  class ServerContext {
    var wifiStatus: bool
    var presenceStatus: bool
    const msgBuf: array<char>
    var msgLen: nat

    ghost predicate Valid()
      reads this
    {
      msgBuf.Length == MSG_BUFF_SIZE && msgLen <= MSG_BUFF_SIZE
    }

    function Status(): WireCodec.Status
      reads this
    {
      WireCodec.Status(wifiStatus, presenceStatus)
    }

    /** `ot_coap_init`: both statuses start false; the commands buffer is zero. */
    constructor Init()
      ensures Valid() && fresh(msgBuf)
      ensures Status() == WireCodec.Status(false, false)
      ensures msgLen == 0 && forall i :: 0 <= i < MSG_BUFF_SIZE ==> msgBuf[i] == NUL
    {
      wifiStatus := false;
      presenceStatus := false;
      msgBuf := new char[MSG_BUFF_SIZE](_ => NUL);
      msgLen := 0;
    }

    /** `set_wifi_status`: only the wifi status changes. */
    method SetWifiStatus(b: bool)
      modifies this
      ensures Status() == old(Status()).(wifi := b)
      ensures msgLen == old(msgLen)
    {
      wifiStatus := b;
    }

    /** `set_presence_status`: only the presence status changes. */
    method SetPresenceStatus(b: bool)
      modifies this
      ensures Status() == old(Status()).(presence := b)
      ensures msgLen == old(msgLen)
    {
      presenceStatus := b;
    }

    /**
     * The payload the ressources response builds: the wifi text, then the
     * presence text, copied index by index, then the NUL.
     */
    method BuildRessourcesPayload() returns (payload: seq<char>)
      ensures payload == RessourcesPayload(Status())
    {
      var wifiPayload := if wifiStatus then "wifi:1" else "wifi:0";
      var presencePayload := if presenceStatus then " prs:1" else " prs:0";
      var payloadSize := |wifiPayload| + |presencePayload| + 1;
      var buf := new char[payloadSize];
      ghost var text := wifiPayload + presencePayload;
      var i := 0;
      while i < payloadSize - 1
        invariant 0 <= i <= payloadSize - 1
        invariant forall j :: 0 <= j < i ==> buf[j] == text[j]
      {
        if i < |wifiPayload| {
          buf[i] := wifiPayload[i];
        } else {
          buf[i] := presencePayload[i - |wifiPayload|];
        }
        i := i + 1;
      }
      buf[payloadSize - 1] := NUL;
      payload := buf[..];
      assert payload == text + [NUL];
      assert text == "wifi:" + [Digit(wifiStatus)] + " prs:" + [Digit(presenceStatus)];
    }

    /** `ressources_status_request_handler`. */
    method RessourcesStatusRequestHandler(req: Incoming, sent: bool) returns (h: Handled)
      ensures h == HandleStatusRequest(RessourcesUri, Status(), req, sent)
    {
      h := Handled(None, None);
      if req.kind == NonConfirmable && req.code == Get {
        var payload := BuildRessourcesPayload();
        h := Handled(Some(payload), None);
        if sent {
          h := h.(callback := Some(OnRessourcesStatusRequest));
        }
      }
    }

    /** `wifi_status_request_handler`. */
    method WifiStatusRequestHandler(req: Incoming, sent: bool) returns (h: Handled)
      ensures h == HandleStatusRequest(WifiUri, Status(), req, sent)
    {
      h := Handled(None, None);
      if req.kind == NonConfirmable && req.code == Get {
        var payload := if wifiStatus then "wifi:1" + [NUL] else "wifi:0" + [NUL];
        assert payload == WifiPayload(wifiStatus);
        h := Handled(Some(payload), None);
        if sent {
          h := h.(callback := Some(OnRessourcesStatusRequest));
        }
      }
    }

    /** `presence_status_request_handler`. */
    method PresenceStatusRequestHandler(req: Incoming, sent: bool) returns (h: Handled)
      ensures h == HandleStatusRequest(PresenceUri, Status(), req, sent)
    {
      h := Handled(None, None);
      if req.kind == NonConfirmable && req.code == Get {
        var payload := if presenceStatus then "prs:1" + [NUL] else "prs:0" + [NUL];
        assert payload == PresencePayload(presenceStatus);
        h := Handled(Some(payload), None);
        if sent {
          h := h.(callback := Some(OnRessourcesStatusRequest));
        }
      }
    }

    /**
     * `commands_request_handler`: after a successful acknowledgement the
     * payload is read into `msg_buf` and `msg_len`; the status never changes.
     */
    method CommandsRequestHandler(req: Incoming, sent: bool) returns (h: Handled)
      requires Valid()
      modifies this, msgBuf
      ensures Valid()
      ensures h == HandleCommands(req, sent)
      ensures wifiStatus == old(wifiStatus) && presenceStatus == old(presenceStatus)
      ensures h.callback.Some? ==>
                msgLen == ReadLength(req.payload) && msgBuf[..msgLen] == h.callback.value.msg &&
                forall i :: msgLen <= i < MSG_BUFF_SIZE ==> msgBuf[i] == old(msgBuf[i])
      ensures h.callback.None? ==> msgLen == old(msgLen) && msgBuf[..] == old(msgBuf[..])
    {
      if req.kind != NonConfirmable || req.code != Put {
        return Handled(None, None);
      }
      h := Handled(Some(ACK_TOKEN + [NUL]), None);
      if sent {
        var n := ReadLength(req.payload);
        var i := 0;
        while i < n
          modifies msgBuf
          invariant 0 <= i <= n
          invariant forall j :: 0 <= j < i ==> msgBuf[j] == req.payload[j]
          invariant forall j :: i <= j < MSG_BUFF_SIZE ==> msgBuf[j] == old(msgBuf[j])
        {
          msgBuf[i] := req.payload[i];
          i := i + 1;
        }
        msgLen := n;
        assert msgBuf[..msgLen] == req.payload[..n];
        h := h.(callback := Some(OnCommandsRequest(msgBuf[..msgLen], msgLen % 256)));
      }
    }
  }
}
