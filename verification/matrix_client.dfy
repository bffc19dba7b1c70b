/**
 * The CoAP client of the buttons-matrix dongle: one pending command number,
 * stored before the connectivity gate and sent as the token "CMD" plus a
 * digit, and the keep-alive.
 */
module MatrixClient {
  import opened CStrings
  import opened WireCodec
  import opened Mesh

  datatype MatrixWork = MulticastCommands | KeepAlive

  /** KEEP_ALIVE_DEVICE_ID_3 */
  const KEEP_ALIVE_DEVICE_ID_3: seq<char> := "bt_3_30"

  /** Largest 16-bit command number. */
  const UINT16_MAX: nat := 0xFFFF

  class Client {
    const mesh: Dispatcher<MatrixWork>
    /** `cmd_to_send_nb` */
    var cmdToSendNb: nat

    ghost predicate Valid()
      reads this
    {
      cmdToSendNb <= UINT16_MAX
    }

    constructor ()
      ensures Valid() && fresh(mesh) && cmdToSendNb == 0
      ensures !mesh.isConnected && mesh.pending == {}
    {
      mesh := new Dispatcher();
      cmdToSendNb := 0;
    }

    /**
     * `coap_client_send_command_to_server_message`: the number is stored
     * whether or not the device is connected, replacing any earlier one,
     * and the send is queued only when connected.
     */
    method SendCommandToServerMessage(n: nat)
      requires n <= UINT16_MAX
      modifies this, mesh
      ensures Valid() && cmdToSendNb == n
      ensures mesh.pending == if mesh.isConnected then old(mesh.pending) + {Job(MulticastCommands)} else old(mesh.pending)
      ensures mesh.isConnected == old(mesh.isConnected)
      ensures mesh.statusLed == old(mesh.statusLed) && mesh.commandsLed == old(mesh.commandsLed)
    {
      cmdToSendNb := n;
      var _ := mesh.SubmitWorkIfConnected(MulticastCommands);
    }

    /**
     * `send_commands_to_server_message`: the 4-byte payload "CMDX" with
     * byte 3 replaced by `'0' + cmd_to_send_nb` (kept to one byte) is sent
     * as a PUT; the commands LED goes on, the number is reset to 0 and the
     * item leaves the queue.
     */
    method SendCommandsWork() returns (req: Request)
      modifies this, mesh
      ensures req == Request(Put, CommandsUri, CommandPayload(old(cmdToSendNb)))
      ensures Valid() && cmdToSendNb == 0
      ensures mesh.commandsLed && mesh.statusLed == old(mesh.statusLed)
      ensures mesh.isConnected == old(mesh.isConnected)
      ensures mesh.pending == old(mesh.pending) - {Job(MulticastCommands)}
    {
      mesh.Dequeue(Job(MulticastCommands));
      var msgBuf := new char[5];
      msgBuf[0], msgBuf[1], msgBuf[2], msgBuf[3], msgBuf[4] := 'C', 'M', 'D', 'X', NUL;
      var msgLen := 4;
      msgBuf[3] := ((cmdToSendNb + '0' as int) % 256) as char;
      req := Request(Put, CommandsUri, msgBuf[..msgLen]);
      mesh.commandsLed := true;
      cmdToSendNb := 0;
    }

    /** `send_keep_alive`: a PUT of "bt_3_30" with its NUL; the commands LED goes on and the item leaves the queue. */
    method SendKeepAliveWork() returns (req: Request)
      modifies mesh
      ensures req == Request(Put, CommandsUri, KEEP_ALIVE_DEVICE_ID_3 + [NUL])
      ensures mesh.commandsLed && mesh.statusLed == old(mesh.statusLed)
      ensures mesh.isConnected == old(mesh.isConnected)
      ensures mesh.pending == old(mesh.pending) - {Job(KeepAlive)}
    {
      mesh.Dequeue(Job(KeepAlive));
      req := Request(Put, CommandsUri, KEEP_ALIVE_DEVICE_ID_3 + [NUL]);
      mesh.commandsLed := true;
    }

    /** `coap_client_send_keep_alive` */
    method SendKeepAlive()
      modifies mesh
      ensures mesh.pending == if mesh.isConnected then old(mesh.pending) + {Job(KeepAlive)} else old(mesh.pending)
      ensures mesh.isConnected == old(mesh.isConnected)
      ensures mesh.statusLed == old(mesh.statusLed) && mesh.commandsLed == old(mesh.commandsLed)
    {
      var _ := mesh.SubmitWorkIfConnected(KeepAlive);
    }
  }

  /** Two submissions before a send: the later number is the one sent. */
  method LastWriteWins(c: Client, a: nat, b: nat) returns (req: Request)
    requires a <= UINT16_MAX && b <= UINT16_MAX
    modifies c, c.mesh
    ensures req.payload == CommandPayload(b)
  {
    c.SendCommandToServerMessage(a);
    c.SendCommandToServerMessage(b);
    req := c.SendCommandsWork();
  }
}
