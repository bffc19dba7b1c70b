/**
 * The buttons-matrix dongle: two line outputs driven in opposite phase and
 * toggled every round, two row inputs, and the choice of which of the four
 * switches S1..S4 a row reading means.
 */
module ButtonsMatrix {
  import opened Wrappers
  import MatrixClient
  import Mesh

  /**
   * `check_buttons` as a decision: row 1 takes precedence; within a row
   * the line 1 status picks the switch. No active row, no command.
   */
  function CommandFor(row1: bool, row2: bool, l1: bool): (cmd: Option<nat>)
    ensures cmd.None? <==> !row1 && !row2
    ensures cmd.Some? ==> 1 <= cmd.value <= 4
    ensures cmd.Some? ==> (cmd.value <= 2 <==> row1)
    ensures cmd.Some? ==> (cmd.value % 2 == 1 <==> l1)
  {
    if row1 then Some(if l1 then 1 else 2)
    else if row2 then Some(if l1 then 3 else 4)
    else None
  }

  /**
   * The command number identifies the switch: the same number comes only
   * from the same active row under the same line phase, and row 2 matters
   * only when row 1 is idle.
   */
  lemma CommandIdentifiesSwitch(row1: bool, row2: bool, l1: bool, row1': bool, row2': bool, l1': bool)
    requires CommandFor(row1, row2, l1).Some?
    requires CommandFor(row1, row2, l1) == CommandFor(row1', row2', l1')
    ensures row1 == row1' && l1 == l1' && (!row1 ==> row2 == row2')
  {
  }

  class Matrix {
    const client: MatrixClient.Client
    var l1Status: bool
    var l2Status: bool

    /** The two lines are always in opposite phase. */
    ghost predicate Valid()
      reads this
    {
      l1Status != l2Status
    }

    /** The start of `main`: line 1 status false, line 2 status true. */
    constructor ()
      ensures Valid() && fresh(client) && fresh(client.mesh)
      ensures !l1Status && l2Status
      ensures client.cmdToSendNb == 0 && !client.mesh.isConnected && client.mesh.pending == {}
    {
      client := new MatrixClient.Client();
      l1Status := false;
      l2Status := true;
    }

    /** `toggle_matrix_lines`: both line statuses flip, so they stay opposite. */
    method ToggleMatrixLines()
      requires Valid()
      modifies this
      ensures Valid()
      ensures l1Status == !old(l1Status) && l2Status == !old(l2Status)
    {
      var l1OldStatus := l1Status;
      var l2OldStatus := l2Status;
      l1Status := !l1OldStatus;
      l2Status := !l2OldStatus;
    }

    /**
     * `check_buttons`: at most one command per call, the one `CommandFor`
     * names, stored and queued behind the connectivity gate. An active row
     * blinks the status LED, which is off when the call returns; with no
     * active row the LED keeps its state.
     */
    method CheckButtons(row1: bool, row2: bool) returns (sent: Option<nat>)
      modifies client, client.mesh
      ensures sent == CommandFor(row1, row2, l1Status)
      ensures sent.Some? ==> client.cmdToSendNb == sent.value
      ensures sent.None? ==> client.cmdToSendNb == old(client.cmdToSendNb)
      ensures client.mesh.pending ==
                if sent.Some? && client.mesh.isConnected
                then old(client.mesh.pending) + {Mesh.Job(MatrixClient.MulticastCommands)}
                else old(client.mesh.pending)
      ensures client.mesh.isConnected == old(client.mesh.isConnected)
      ensures client.mesh.statusLed == (sent.None? && old(client.mesh.statusLed))
      ensures client.mesh.commandsLed == old(client.mesh.commandsLed)
    {
      sent := None;
      if row1 {
        client.mesh.statusLed := true;
        if l1Status {
          client.SendCommandToServerMessage(1);
          sent := Some(1);
        } else {
          client.SendCommandToServerMessage(2);
          sent := Some(2);
        }
        client.mesh.statusLed := false;
        return;
      }
      if row2 {
        client.mesh.statusLed := true;
        if l1Status {
          client.SendCommandToServerMessage(3);
          sent := Some(3);
        } else {
          client.SendCommandToServerMessage(4);
          sent := Some(4);
        }
        client.mesh.statusLed := false;
        return;
      }
    }
  }
}
