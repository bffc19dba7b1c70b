/**
 * The power-strip dongle: four relay outputs, set together or one at a
 * time, brought in line with the server's report, and a main loop that
 * polls the server every round and sends a keep-alive every other round.
 */
module PowerStripNode {
  import opened WireCodec
  import opened Mesh
  import opened PowerStripClient

  const KEEP_ALIVE_MSG_PERIOD_MS: int := 10000
  const REQUEST_STATUS_PERIOD_MS: int := 4000
  /** Rounds between keep-alives: the integer quotient of the two periods. */
  const WAIT_LOOPS_FOR_KA: int := KEEP_ALIVE_MSG_PERIOD_MS / REQUEST_STATUS_PERIOD_MS

  /** The relays after setting relay `n` to `b`; a number outside 1..4 changes nothing. */
  function WithRelay(r: Relays, n: nat, b: bool): Relays {
    if n == 1 then r.(r1 := b)
    else if n == 2 then r.(r2 := b)
    else if n == 3 then r.(r3 := b)
    else if n == 4 then r.(r4 := b)
    else r
  }

  /** Setting one relay changes that relay and no other. */
  lemma WithRelayChangesOnlyOne(r: Relays, n: nat, b: bool)
    ensures forall m :: 1 <= m <= 4 ==> Relay(WithRelay(r, n, b), m) == if m == n then b else Relay(r, m)
    ensures !(1 <= n <= 4) ==> WithRelay(r, n, b) == r
  {
  }

  /** `loops_count` after `n` rounds of the main loop. */
  function LoopsCountAfter(n: nat): int {
    if n == 0 then 0
    else
      var c := LoopsCountAfter(n - 1);
      (if c >= WAIT_LOOPS_FOR_KA then 0 else c) + 1
  }

  /** How many rounds among the first `n` send a keep-alive. */
  function KeepAlivesAfter(n: nat): nat {
    if n == 0 then 0
    else KeepAlivesAfter(n - 1) + (if LoopsCountAfter(n - 1) >= WAIT_LOOPS_FOR_KA then 1 else 0)
  }

  /**
   * With WAIT_LOOPS_FOR_KA = 2 the counter alternates 1, 2, 1, 2, ...:
   * after every round it is 1 or 2, and the keep-alive goes out on rounds
   * 3, 5, 7, ..., (n - 1) / 2 of them after n rounds.
   */
  lemma {:induction false} KeepAliveSchedule(n: nat)
    ensures WAIT_LOOPS_FOR_KA == 2
    ensures n >= 1 ==> LoopsCountAfter(n) == if n % 2 == 1 then 1 else 2
    ensures n >= 1 ==> 1 <= LoopsCountAfter(n) <= 2
    ensures KeepAlivesAfter(n) == if n == 0 then 0 else (n - 1) / 2
  {
    if n >= 1 {
      KeepAliveSchedule(n - 1);
    }
  }

  class PowerStrip {
    const client: Client
    var relay1Status: bool
    var relay2Status: bool
    var relay3Status: bool
    var relay4Status: bool

    function Relays(): WireCodec.Relays
      reads this
    {
      WireCodec.Relays(relay1Status, relay2Status, relay3Status, relay4Status)
    }

    /** The start of `main`: every relay switched on, the client initialised. */
    constructor (keepAliveId: seq<char>)
      ensures fresh(client) && fresh(client.mesh) && client.keepAliveId == keepAliveId
      ensures Relays() == WireCodec.Relays(true, true, true, true)
      ensures client.Cache() == WireCodec.Relays(false, false, false, false)
      ensures !client.mesh.isConnected && client.mesh.pending == {}
    {
      relay1Status, relay2Status, relay3Status, relay4Status := true, true, true, true;
      client := new Client(keepAliveId);
    }

    /** `set_relays_status`: all four relays take the given values. */
    method SetRelaysStatus(r: WireCodec.Relays)
      modifies this
      ensures Relays() == r
    {
      relay1Status := r.r1;
      relay2Status := r.r2;
      relay3Status := r.r3;
      relay4Status := r.r4;
    }

    /** `set_single_relay_status`: relay `n` (a 16-bit number) takes `status`; any other number is refused. */
    method SetSingleRelayStatus(n: nat, status: bool)
      requires n < 0x1_0000
      modifies this
      ensures Relays() == WithRelay(old(Relays()), n, status)
    {
      if n == 1 {
        relay1Status := status;
        return;
      }
      if n == 2 {
        relay2Status := status;
        return;
      }
      if n == 3 {
        relay3Status := status;
        return;
      }
      if n == 4 {
        relay4Status := status;
        return;
      }
    }

    /** `update_power_strip_status`: the relays follow the cached server report. */
    method UpdatePowerStripStatus()
      modifies this
      ensures Relays() == client.Cache()
    {
      var r1 := client.GetServerStatus(1);
      var r2 := client.GetServerStatus(2);
      var r3 := client.GetServerStatus(3);
      var r4 := client.GetServerStatus(4);
      SetRelaysStatus(WireCodec.Relays(r1, r2, r3, r4));
    }

    /**
     * `rounds` rounds of the main loop: each queues a status request,
     * applies the cached report to the relays, and when the counter has
     * reached WAIT_LOOPS_FOR_KA queues a keep-alive and restarts it; the
     * counter then grows by one. Returns the counter and, as a ghost that
     * the firmware does not keep, the number of keep-alive submissions.
     * The work queue does not run between rounds here.
     */
    method MainLoop(rounds: nat) returns (loopsCount: int, ghost keepAlives: nat)
      modifies this, client.mesh
      ensures loopsCount == LoopsCountAfter(rounds) && keepAlives == KeepAlivesAfter(rounds)
      ensures rounds > 0 ==> Relays() == client.Cache()
      ensures rounds == 0 ==> Relays() == old(Relays())
      ensures client.mesh.isConnected == old(client.mesh.isConnected)
      ensures client.mesh.pending == if rounds > 0 && client.mesh.isConnected
                                     then old(client.mesh.pending) + {Job(PowerStripStatus)} +
                                          (if rounds >= 3 then {Job(KeepAlive)} else {})
                                     else old(client.mesh.pending)
      ensures client.mesh.statusLed == old(client.mesh.statusLed) && client.mesh.commandsLed == old(client.mesh.commandsLed)
    {
      loopsCount := 0;
      keepAlives := 0;
      var i := 0;
      while i < rounds
        invariant 0 <= i <= rounds
        invariant loopsCount == LoopsCountAfter(i) && keepAlives == KeepAlivesAfter(i)
        invariant i > 0 ==> Relays() == client.Cache()
        invariant i == 0 ==> Relays() == old(Relays())
        invariant client.mesh.isConnected == old(client.mesh.isConnected)
        invariant client.mesh.pending == if i > 0 && client.mesh.isConnected
                                         then old(client.mesh.pending) + {Job(PowerStripStatus)} +
                                              (if i >= 3 then {Job(KeepAlive)} else {})
                                         else old(client.mesh.pending)
        invariant client.mesh.statusLed == old(client.mesh.statusLed) && client.mesh.commandsLed == old(client.mesh.commandsLed)
      {
        KeepAliveSchedule(i);
        client.Submit(PowerStripStatus);
        UpdatePowerStripStatus();
        if loopsCount >= WAIT_LOOPS_FOR_KA {
          client.Submit(KeepAlive);
          keepAlives := keepAlives + 1;
          loopsCount := 0;
        }
        loopsCount := loopsCount + 1;
        i := i + 1;
      }
    }
  }
}
