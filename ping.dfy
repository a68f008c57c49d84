/**
 * PingReceiver: the server relays a received ping position to every client; a client shows it
 * with the next particle system of a fixed ring.
 */
module Ping {
  import opened Wire
  import opened Runtime
  import opened Codec
  import opened ClientDebug
  import opened Roles

  const PingSendKey := "PingSend"

  /** One ping particle system: where it stands in the play space and whether it is active. */
  datatype Marker = Marker(localPosition: Vec3, active: bool)

  /** The ring step: the next slot, wrapping to 0 at the end of the array. */
  function NextIndex(last: int, length: nat): int
  {
    if last + 1 < length then last + 1 else 0
  }

  /** A slot inside the ring stays inside it. */
  lemma NextIndexInRange(last: int, length: nat)
    requires 0 <= last < length
    ensures 0 <= NextIndex(last, length) < length
  {
  }

  /** The slot after `n` client pings starting from slot `k`. */
  function Advance(k: int, n: nat, length: nat): int
  {
    if n == 0 then k else NextIndex(Advance(k, n - 1, length), length)
  }

  /** Pings compose: n + m steps are n steps, then m more. */
  lemma {:induction false} AdvanceCompose(k: int, n: nat, m: nat, length: nat)
    ensures Advance(k, n + m, length) == Advance(Advance(k, n, length), m, length)
  {
    if m > 0 {
      AdvanceCompose(k, n, m - 1, length);
    }
  }

  /** Before the end of the ring, n pings move exactly n slots forward. */
  lemma {:induction false} AdvanceForward(k: int, n: nat, length: nat)
    requires 0 <= k && k + n < length
    ensures Advance(k, n, length) == k + n
  {
    if n > 0 {
      AdvanceForward(k, n - 1, length);
    }
  }

  /** The number of pings that take slot `k` to slot `j`. */
  function StepsTo(k: int, j: int, length: nat): nat
    requires 0 <= k < length && 0 <= j < length
  {
    if k <= j then j - k else length - k + j
  }

  /**
   * Every slot is used once per round: from slot `k`, slot `j` comes after StepsTo(k, j) pings,
   * fewer than the ring's length, and after `length` pings the ring is back at `k`.
   */
  lemma RingCycles(k: int, length: nat)
    requires 0 <= k < length
    ensures Advance(k, length, length) == k
    ensures forall j :: 0 <= j < length ==> StepsTo(k, j, length) < length && Advance(k, StepsTo(k, j, length), length) == j
  {
    AdvanceForward(k, length - k - 1, length);
    assert Advance(k, length - k, length) == 0;
    AdvanceForward(0, k, length);
    AdvanceCompose(k, length - k, k, length);
    forall j | 0 <= j < length
      ensures Advance(k, StepsTo(k, j, length), length) == j
    {
      if k <= j {
        AdvanceForward(k, j - k, length);
      } else {
        AdvanceForward(0, j, length);
        AdvanceCompose(k, length - k, j, length);
      }
    }
  }

  /** PingSender.SendPingToAll as the server uses it: the position, to everyone, default delivery. */
  method SendPingToAll(net: NetworkRuntime, position: Vec3)
    modifies net
    ensures net.outbox == old(net.outbox) + [Message(PingSendKey, ToAll, EncodeVec3(position), DefaultDelivery)]
    ensures net.log == old(net.log) && net.Session() == old(net.Session())
  {
    var writer := new Writer();
    WriteVector3ToStream(position, writer);
    assert writer.data == EncodeVec3(position);
    net.SendToAll(PingSendKey, writer.data, DefaultDelivery);
  }

  class PingReceiver {
    const net: NetworkRuntime
    const deviceType: DeviceType
    const pingParticleSystems: array<Marker>
    var lastUsedPS: int

    constructor (net: NetworkRuntime, deviceType: DeviceType, pingParticleSystems: array<Marker>, lastUsedPS: int)
      ensures this.net == net && this.deviceType == deviceType
      ensures this.pingParticleSystems == pingParticleSystems && this.lastUsedPS == lastUsedPS
    {
      this.net := net;
      this.deviceType := deviceType;
      this.pingParticleSystems := pingParticleSystems;
      this.lastUsedPS := lastUsedPS;
    }

    /**
     * PingHandler: reads one vector. The server (MetaDataHolder.IsServer) relays it to everyone and changes nothing else.
     * A client reports the ping to the server (`show` renders the vector as Vector3.ToString
     * does), steps the ring, then moves and activates the selected particle system; when the
     * step lands outside the array (an empty array, or a counter below -1) the indexing throws
     * after the step, and `aborted` reports that.
     */
    method PingHandler(senderClientId: ClientId, reader: Reader, show: Vec3 -> string) returns (aborted: bool)
      requires FloatsAt(reader.data, reader.pos, 3)
      modifies reader, this, pingParticleSystems, net
      ensures reader.pos == old(reader.pos) + 3
      ensures var pos := DecodeVec3(reader.data, old(reader.pos));
        if IsServer(deviceType) then
          && !aborted
          && net.outbox == old(net.outbox) + [Message(PingSendKey, ToAll, EncodeVec3(pos), DefaultDelivery)]
          && lastUsedPS == old(lastUsedPS)
          && pingParticleSystems[..] == old(pingParticleSystems[..])
        else
          var k := NextIndex(old(lastUsedPS), pingParticleSystems.Length);
          && net.outbox == old(net.outbox) +
               (if old(net.messagingReady) then [DebugMessage(SeverityDebug, "Received Ping at " + show(pos))] else [])
          && lastUsedPS == k
          && (aborted <==> !(0 <= k < pingParticleSystems.Length))
          && (!aborted ==> pingParticleSystems[..] == old(pingParticleSystems[..])[k := Marker(pos, true)])
          && (aborted ==> pingParticleSystems[..] == old(pingParticleSystems[..]))
      ensures net.log == old(net.log) && net.Session() == old(net.Session())
    {
      var pos := ReadVector3FromStream(reader);
      aborted := false;
      if IsServer(deviceType) {
        SendPingToAll(net, pos);
      } else {
        DebugToServer(net, "Received Ping at " + show(pos));
        lastUsedPS := if lastUsedPS + 1 < pingParticleSystems.Length then lastUsedPS + 1 else 0;
        if !(0 <= lastUsedPS < pingParticleSystems.Length) {
          aborted := true;
          return;
        }
        pingParticleSystems[lastUsedPS] := Marker(pos, true);
      }
    }
  }
}
