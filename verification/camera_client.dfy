/**
 * The CoAP client of the camera dongle: the command buffer that is filled before the connectivity
 * gate and cleared after sending, the cached server status filled by the
 * status replies, and the request senders run from the work queue.
 */
module CameraClient {
  import opened Wrappers
  import opened CStrings
  import opened WireCodec
  import opened Mesh
  import opened ServerCoap

  /** The work items of this client besides connect and disconnect. */
  datatype CameraWork = MulticastCommands | RessourcesStatus | SendAlarm | WifiStatus | PresenceStatus

  /** The work item that sends the GET for a status resource. */
  function StatusWork(uri: Uri): CameraWork
    requires IsStatusUri(uri)
  {
    match uri
    case RessourcesUri => RessourcesStatus
    case WifiUri => WifiStatus
    case PresenceUri => PresenceStatus
  }

  /**
   * A status reply from the server updates the cache as the server's own
   * store is: the aggregate reply copies both fields, the wifi and presence
   * replies copy theirs and keep the other.
   */
  lemma ServerReplyUpdatesCache(uri: Uri, s: Status, cached: Status)
    requires IsStatusUri(uri)
    ensures ApplyStatus(cached, StatusResponse(uri, s)) ==
            match uri
            case RessourcesUri => s
            case WifiUri => cached.(wifi := s.wifi)
            case PresenceUri => cached.(presence := s.presence)
  {
    match uri
    case RessourcesUri => RessourcesRoundTrip(s, cached);
    case WifiUri => WifiRoundTrip(s.wifi, cached);
    case PresenceUri => PresenceRoundTrip(s.presence, cached);
  }

  class Client {
    const mesh: Dispatcher<CameraWork>
    /** `msg_buf` and `msg_len`: the one pending command. */
    const msgBuf: array<char>
    var msgLen: nat
    /** `srv_ressources`: the last server status received. */
    var wifiStatus: bool
    var presenceStatus: bool
    /** The alarm message text. */
    const alarm: seq<char>

    ghost predicate Valid()
      reads this
    {
      msgBuf.Length == MSG_BUFF_SIZE && msgLen <= MSG_BUFF_SIZE
    }

    function Cache(): Status
      reads this
    {
      Status(wifiStatus, presenceStatus)
    }

    /** The client after `coap_client_utils_init`: nothing cached, nothing queued, the buffer zero. */
    constructor (alarm: seq<char>)
      ensures Valid() && fresh(mesh) && fresh(msgBuf) && this.alarm == alarm
      ensures Cache() == Status(false, false) && msgLen == 0
      ensures forall i :: 0 <= i < MSG_BUFF_SIZE ==> msgBuf[i] == NUL
      ensures !mesh.isConnected && mesh.pending == {}
    {
      mesh := new Dispatcher();
      msgBuf := new char[MSG_BUFF_SIZE](_ => NUL);
      msgLen := 0;
      wifiStatus := false;
      presenceStatus := false;
      this.alarm := alarm;
    }

    /** `get_server_wifi_status`: the cached wifi status. */
    function GetServerWifiStatus(): (r: bool)
      reads this
      ensures r == Cache().wifi
    {
      wifiStatus
    }

    /** `get_server_presence_status`: the cached presence status. */
    function GetServerPresenceStatus(): (r: bool)
      reads this
      ensures r == Cache().presence
    {
      presenceStatus
    }

    /**
     * `coap_client_send_commands_to_server_message`: the command is copied
     * into the buffer whether or not the device is connected, replacing the
     * previous one, and the send is queued only when connected.
     */
    method SendCommandsToServerMessage(msg: seq<char>)
      requires Valid() && |msg| <= MSG_BUFF_SIZE
      modifies this, msgBuf, mesh
      ensures Valid()
      ensures msgLen == |msg| && msgBuf[..msgLen] == msg
      ensures forall i :: |msg| <= i < MSG_BUFF_SIZE ==> msgBuf[i] == old(msgBuf[i])
      ensures mesh.pending == if mesh.isConnected then old(mesh.pending) + {Job(MulticastCommands)} else old(mesh.pending)
      ensures mesh.isConnected == old(mesh.isConnected)
      ensures mesh.statusLed == old(mesh.statusLed) && mesh.commandsLed == old(mesh.commandsLed)
      ensures Cache() == old(Cache())
    {
      msgLen := |msg|;
      var i := 0;
      while i < |msg|
        modifies msgBuf
        invariant 0 <= i <= |msg|
        invariant forall j :: 0 <= j < i ==> msgBuf[j] == msg[j]
        invariant forall j :: i <= j < MSG_BUFF_SIZE ==> msgBuf[j] == old(msgBuf[j])
      {
        msgBuf[i] := msg[i];
        i := i + 1;
      }
      var _ := mesh.SubmitWorkIfConnected(MulticastCommands);
    }

    /**
     * `send_commands_to_server_message`: the buffered command is sent as a
     * PUT to the commands resource, the commands LED goes on, and the
     * buffer is emptied: length 0 and every cell zero. The item has left
     * the queue.
     */
    method SendCommandsWork() returns (req: Request)
      requires Valid()
      modifies this, msgBuf, mesh
      ensures Valid()
      ensures req == Request(Put, CommandsUri, old(msgBuf[..msgLen]))
      ensures msgLen == 0 && forall i :: 0 <= i < MSG_BUFF_SIZE ==> msgBuf[i] == NUL
      ensures mesh.commandsLed && mesh.statusLed == old(mesh.statusLed)
      ensures mesh.isConnected == old(mesh.isConnected)
      ensures mesh.pending == old(mesh.pending) - {Job(MulticastCommands)}
      ensures Cache() == old(Cache())
    {
      mesh.Dequeue(Job(MulticastCommands));
      req := Request(Put, CommandsUri, msgBuf[..msgLen]);
      mesh.commandsLed := true;
      msgLen := 0;
      var i := 0;
      while i < MSG_BUFF_SIZE
        modifies msgBuf
        invariant 0 <= i <= MSG_BUFF_SIZE
        invariant forall j :: 0 <= j < i ==> msgBuf[j] == NUL
      {
        msgBuf[i] := NUL;
        i := i + 1;
      }
    }

    /**
     * `on_ressource_status_reply`: the status LED goes off; wifi is cached
     * from the byte 5 after the first 'w' and presence from the byte 4
     * after the first 'p', and a missing tag keeps its field.
     */
    method OnRessourceStatusReply(payload: seq<char>)
      modifies this, mesh
      ensures Cache() == ApplyStatus(old(Cache()), payload)
      ensures !mesh.statusLed && mesh.commandsLed == old(mesh.commandsLed)
      ensures mesh.isConnected == old(mesh.isConnected) && mesh.pending == old(mesh.pending)
      ensures msgLen == old(msgLen)
    {
      mesh.statusLed := false;
      var w := FindChar(payload, 'w');
      if w.Some? {
        wifiStatus := At(payload, w.value + 5) == '1';
      }
      var p := FindChar(payload, 'p');
      if p.Some? {
        presenceStatus := At(payload, p.value + 4) == '1';
      }
    }

    /**
     * The GET the ressources, wifi and presence work items send; each turns
     * the status LED on and leaves the queue.
     */
    method SendStatusRequest(uri: Uri) returns (req: Request)
      requires IsStatusUri(uri)
      modifies mesh
      ensures req == Request(Get, uri, [])
      ensures mesh.statusLed && mesh.commandsLed == old(mesh.commandsLed)
      ensures mesh.isConnected == old(mesh.isConnected)
      ensures mesh.pending == old(mesh.pending) - {Job(StatusWork(uri))}
    {
      mesh.Dequeue(Job(StatusWork(uri)));
      req := Request(Get, uri, []);
      mesh.statusLed := true;
    }

    /** `send_alarm`: a PUT of the alarm text with its NUL; the commands LED goes on and the item leaves the queue. */
    method SendAlarmWork() returns (req: Request)
      modifies mesh
      ensures req == Request(Put, CommandsUri, alarm + [NUL])
      ensures mesh.commandsLed && mesh.statusLed == old(mesh.statusLed)
      ensures mesh.isConnected == old(mesh.isConnected)
      ensures mesh.pending == old(mesh.pending) - {Job(SendAlarm)}
    {
      mesh.Dequeue(Job(SendAlarm));
      req := Request(Put, CommandsUri, alarm + [NUL]);
      mesh.commandsLed := true;
    }

    /**
     * `coap_client_send_ressources_status_request`, `..._alarm`,
     * `..._wifi_status_request`, `..._presence_status_request`: queue the
     * work item behind the connectivity gate.
     */
    method Submit(kind: CameraWork)
      requires kind != MulticastCommands
      modifies mesh
      ensures mesh.pending == if mesh.isConnected then old(mesh.pending) + {Job(kind)} else old(mesh.pending)
      ensures mesh.isConnected == old(mesh.isConnected)
      ensures mesh.statusLed == old(mesh.statusLed) && mesh.commandsLed == old(mesh.commandsLed)
    {
      var _ := mesh.SubmitWorkIfConnected(kind);
    }
  }
}
