/**
 * The CoAP client of the power-strip dongle: the cached relay states the
 * server reports in its " outlet:" reply, and the keep-alive and status
 * requests behind the connectivity gate.
 */
module PowerStripClient {
  import opened Wrappers
  import opened CStrings
  import opened WireCodec
  import opened Mesh

  datatype PowerStripWork = KeepAlive | PowerStripStatus

  class Client {
    const mesh: Dispatcher<PowerStripWork>
    /** `srv_ressources`: the relay states last received. */
    var r1Status: bool
    var r2Status: bool
    var r3Status: bool
    var r4Status: bool
    /** The keep-alive message text of this device. */
    const keepAliveId: seq<char>

    function Cache(): Relays
      reads this
    {
      Relays(r1Status, r2Status, r3Status, r4Status)
    }

    /** Nothing cached (all off), nothing queued. */
    constructor (keepAliveId: seq<char>)
      ensures fresh(mesh) && this.keepAliveId == keepAliveId
      ensures Cache() == Relays(false, false, false, false)
      ensures !mesh.isConnected && mesh.pending == {}
    {
      mesh := new Dispatcher();
      r1Status, r2Status, r3Status, r4Status := false, false, false, false;
      this.keepAliveId := keepAliveId;
    }

    /** `get_server_r1_status` .. `get_server_r4_status`: the cached state of relay `n`. */
    function GetServerStatus(n: nat): (r: bool)
      reads this
      requires 1 <= n <= 4
      ensures r == Relay(Cache(), n)
    {
      if n == 1 then r1Status else if n == 2 then r2Status else if n == 3 then r3Status else r4Status
    }

    /**
     * `on_power_strip_status_reply`: the status LED goes off; when the
     * payload holds an 'o', all four relays are read together from the
     * absolute bytes 8..11, otherwise none changes.
     */
    method OnPowerStripStatusReply(payload: seq<char>)
      modifies this, mesh
      ensures Cache() == DecodeOutlets(payload).GetOr(old(Cache()))
      ensures !mesh.statusLed && mesh.commandsLed == old(mesh.commandsLed)
      ensures mesh.isConnected == old(mesh.isConnected) && mesh.pending == old(mesh.pending)
    {
      mesh.statusLed := false;
      if FindChar(payload, 'o').Some? {
        r1Status := At(payload, 8) == '1';
        r2Status := At(payload, 9) == '1';
        r3Status := At(payload, 10) == '1';
        r4Status := At(payload, 11) == '1';
      }
    }

    /** `send_keep_alive`: a PUT of the keep-alive text with its NUL; the commands LED goes on and the item leaves the queue. */
    method SendKeepAliveWork() returns (req: Request)
      modifies mesh
      ensures req == Request(Put, CommandsUri, keepAliveId + [NUL])
      ensures mesh.commandsLed && mesh.statusLed == old(mesh.statusLed)
      ensures mesh.isConnected == old(mesh.isConnected)
      ensures mesh.pending == old(mesh.pending) - {Job(KeepAlive)}
    {
      mesh.Dequeue(Job(KeepAlive));
      req := Request(Put, CommandsUri, keepAliveId + [NUL]);
      mesh.commandsLed := true;
    }

    /** `send_power_strip_status_request`: a GET of the power-strip resource; the status LED goes on and the item leaves the queue. */
    method SendPowerStripStatusWork() returns (req: Request)
      modifies mesh
      ensures req == Request(Get, PowerStripUri, [])
      ensures mesh.statusLed && mesh.commandsLed == old(mesh.commandsLed)
      ensures mesh.isConnected == old(mesh.isConnected)
      ensures mesh.pending == old(mesh.pending) - {Job(PowerStripStatus)}
    {
      mesh.Dequeue(Job(PowerStripStatus));
      req := Request(Get, PowerStripUri, []);
      mesh.statusLed := true;
    }

    /** `coap_client_send_keep_alive` and `coap_client_send_power_strip_status_request`. */
    method Submit(kind: PowerStripWork)
      modifies mesh
      ensures mesh.pending == if mesh.isConnected then old(mesh.pending) + {Job(kind)} else old(mesh.pending)
      ensures mesh.isConnected == old(mesh.isConnected)
      ensures mesh.statusLed == old(mesh.statusLed) && mesh.commandsLed == old(mesh.commandsLed)
    {
      var _ := mesh.SubmitWorkIfConnected(kind);
    }
  }
}
