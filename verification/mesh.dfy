/**
 * What the dongles share about the Thread mesh: device roles, CoAP request
 * shapes, and the connectivity-gated work dispatcher every client carries.
 */
module Mesh {
  import opened WireCodec

  /** The roles an OpenThread device reports on a role change. */
  datatype Role = Disabled | Detached | Child | Router | Leader

  /** Child, Router and Leader count as connected; Disabled and Detached do not. */
  predicate Attached(role: Role) {
    role.Child? || role.Router? || role.Leader?
  }

  /** CoAP message types and the request and response codes the dongles use. */
  datatype CoapType = Confirmable | NonConfirmable | Acknowledgement | Reset
  datatype CoapCode = Get | Post | Put | Delete | Content

  /** The server resources, addressed by URI path. */
  datatype Uri = CommandsUri | RessourcesUri | WifiUri | PresenceUri | PowerStripUri

  /** A CoAP request as the clients send it to the mesh-local multicast address. */
  datatype Request = Request(code: CoapCode, uri: Uri, payload: seq<char>)

  /** A work item: the connect and disconnect callbacks, or one request kind of the client. */
  datatype Work<K> = OnConnect | OnDisconnect | Job(kind: K)

  /**
   * Submitting an item to a queue that already received it, or did not,
   * leaves the queue as a single submission does: a pending item is not
   * queued twice.
   */
  lemma ResubmitIsIdempotent<T>(before: set<T>, queued: set<T>, w: T)
    requires queued == before || queued == before + {w}
    ensures queued + {w} == before + {w}
  {
  }

  /**
   * The connectivity gate with its work queue and the two message LEDs.
   * The queue holds each work item at most once: resubmitting a pending
   * item does not queue it twice, and an item leaves the queue when its
   * handler runs.
   */
  class Dispatcher<K(==)> {
    var isConnected: bool
    var pending: set<Work<K>>
    /** RESSOURCES_STATUS_MSG_LED */
    var statusLed: bool
    /** COMMANDS_MSG_LED */
    var commandsLed: bool

    /** `is_connected` starts false, the queue empty and the LEDs off. */
    constructor ()
      ensures !isConnected && pending == {} && !statusLed && !commandsLed
    {
      isConnected := false;
      pending := {};
      statusLed := false;
      commandsLed := false;
    }

    /**
     * `on_thread_state_changed`: on a role change the device is connected
     * exactly when the new role is attached, and the matching connect or
     * disconnect callback is queued; without the role flag nothing changes.
     */
    method OnThreadStateChanged(roleChanged: bool, role: Role)
      modifies this
      ensures isConnected == if roleChanged then Attached(role) else old(isConnected)
      ensures pending == if !roleChanged then old(pending)
                         else if Attached(role) then old(pending) + {OnConnect}
                         else old(pending) + {OnDisconnect}
      ensures statusLed == old(statusLed) && commandsLed == old(commandsLed)
    {
      if roleChanged {
        if Attached(role) {
          pending := pending + {OnConnect};
          isConnected := true;
        } else {
          pending := pending + {OnDisconnect};
          isConnected := false;
        }
      }
    }

    /** `submit_work_if_connected`: the item is queued exactly when connected. */
    method SubmitWorkIfConnected(kind: K) returns (submitted: bool)
      modifies this
      ensures submitted == isConnected
      ensures pending == if isConnected then old(pending) + {Job(kind)} else old(pending)
      ensures isConnected == old(isConnected)
      ensures statusLed == old(statusLed) && commandsLed == old(commandsLed)
    {
      submitted := isConnected;
      if isConnected {
        pending := pending + {Job(kind)};
      }
    }

    /**
     * The system work queue takes an item off the queue just before running
     * its handler, so a handler that is running can be submitted again.
     */
    method Dequeue(w: Work<K>)
      modifies this
      ensures pending == old(pending) - {w}
      ensures isConnected == old(isConnected)
      ensures statusLed == old(statusLed) && commandsLed == old(commandsLed)
    {
      pending := pending - {w};
    }

    /**
     * `on_commands_msg_reply`: the status LED goes off; the commands LED
     * goes off exactly when the reply holds "CMD:OK" and is left as it was
     * otherwise.
     */
    method OnCommandsMsgReply(payload: seq<char>)
      modifies this
      ensures !statusLed
      ensures commandsLed == (old(commandsLed) && !IsAck(payload))
      ensures isConnected == old(isConnected) && pending == old(pending)
    {
      statusLed := false;
      if IsAck(payload) {
        commandsLed := false;
      }
    }
  }
}
