/**
 * The slice of the networking runtime the protocol talks to: named messages queued in an
 * outbox, the connected client ids, and the log. Delivery itself is not modelled.
 */
module Runtime {
  import opened Wire

  type ClientId = nat
  type ObjectId = nat

  /** NetworkManager.ServerClientId. */
  const ServerClientId: ClientId := 0

  datatype Dest = ToClient(id: ClientId) | ToAll

  /** Reliable is requested explicitly; DefaultDelivery is whatever the messaging layer uses when none is given. */
  datatype Delivery = Reliable | DefaultDelivery

  datatype Message = Message(key: string, dest: Dest, payload: seq<Value>, delivery: Delivery)

  datatype LogLine = Info(text: string) | Warning(text: string) | Error(text: string)

  /** NetworkManager.Singleton with its CustomMessagingManager, and the Unity log. */
  class NetworkRuntime {
    const localClientId: ClientId
    const isServer: bool
    var messagingReady: bool
    var connectedClientsIds: seq<ClientId>
    var outbox: seq<Message>
    var log: seq<LogLine>

    constructor (localClientId: ClientId, isServer: bool, connected: seq<ClientId>)
      ensures this.localClientId == localClientId && this.isServer == isServer
      ensures connectedClientsIds == connected && outbox == [] && log == [] && !messagingReady
    {
      this.localClientId := localClientId;
      this.isServer := isServer;
      connectedClientsIds := connected;
      outbox := [];
      log := [];
      messagingReady := false;
    }

    /** The connection state that sending and logging leave alone. */
    function Session(): (bool, seq<ClientId>)
      reads this
    {
      (messagingReady, connectedClientsIds)
    }

    /** SendNamedMessage. */
    method Send(key: string, to: ClientId, payload: seq<Value>, delivery: Delivery)
      modifies this
      ensures outbox == old(outbox) + [Message(key, ToClient(to), payload, delivery)]
      ensures log == old(log) && Session() == old(Session())
    {
      outbox := outbox + [Message(key, ToClient(to), payload, delivery)];
    }

    /** SendNamedMessageToAll. */
    method SendToAll(key: string, payload: seq<Value>, delivery: Delivery)
      modifies this
      ensures outbox == old(outbox) + [Message(key, ToAll, payload, delivery)]
      ensures log == old(log) && Session() == old(Session())
    {
      outbox := outbox + [Message(key, ToAll, payload, delivery)];
    }

    method Log(line: LogLine)
      modifies this
      ensures log == old(log) + [line] && outbox == old(outbox) && Session() == old(Session())
    {
      log := log + [line];
    }
  }
}
