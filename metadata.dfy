/**
 * ClientMetaDataHolder: the server's table of what each client reported on connection, the
 * HideHead broadcasts for Optitrack clients and the allocation of LSL bridge ports to
 * HoloLens clients.
 */
module ClientMeta {
  import opened Wire
  import opened Runtime
  import opened Roles
  import opened Wrappers

  const HideHeadKey := "HideHead"
  const LSLPortKey := "LSLPort"

  /** ClientMetaData: a client's id, device type and device name. */
  datatype ClientMetaData = ClientMetaData(clientID: ClientId, clientType: DeviceType, clientDeviceName: string)

  /** The HideHead message naming the Optitrack client `id`. */
  function HideHead(dest: Dest, id: ClientId): Message
  {
    Message(HideHeadKey, dest, [U64(id)], Reliable)
  }

  /** The LSLPort message: a port and the bridge host name. */
  function LSLPort(to: ClientId, port: int, host: string): Message
  {
    Message(LSLPortKey, ToClient(to), [I32(port), Str(host)], Reliable)
  }

  // ---------------------------------------------------------------- the record list

  /** The ids of the Optitrack records, in list order. */
  function OTIds(records: seq<ClientMetaData>): (ids: seq<ClientId>)
    ensures |ids| <= |records|
  {
    if records == [] then []
    else
      var last := records[|records| - 1];
      OTIds(records[..|records| - 1]) + (if last.clientType == OTCLIENT then [last.clientID] else [])
  }

  /** An id is listed exactly when some Optitrack record carries it. */
  lemma {:induction false} OTIdsMembers(records: seq<ClientMetaData>, id: ClientId)
    ensures id in OTIds(records) <==>
      exists k :: 0 <= k < |records| && records[k].clientType == OTCLIENT && records[k].clientID == id
  {
    if records != [] {
      var init := records[..|records| - 1];
      OTIdsMembers(init, id);
      if exists k :: 0 <= k < |init| && init[k].clientType == OTCLIENT && init[k].clientID == id {
        var k :| 0 <= k < |init| && init[k].clientType == OTCLIENT && init[k].clientID == id;
        assert records[k] == init[k];
      }
      if exists k :: 0 <= k < |records| && records[k].clientType == OTCLIENT && records[k].clientID == id {
        var k :| 0 <= k < |records| && records[k].clientType == OTCLIENT && records[k].clientID == id;
        if k < |init| {
          assert init[k] == records[k];
        }
      }
    }
  }

  /** ClientConnected's messages to the new client `to`: one HideHead per stored Optitrack record. */
  function HideHeadsFor(records: seq<ClientMetaData>, to: ClientId): seq<Message>
  {
    if records == [] then []
    else
      var last := records[|records| - 1];
      HideHeadsFor(records[..|records| - 1], to) +
      (if last.clientType == OTCLIENT then [HideHead(ToClient(to), last.clientID)] else [])
  }

  /** The new client receives exactly the Optitrack ids of the table, in list order, each once. */
  lemma {:induction false} HideHeadsForIds(records: seq<ClientMetaData>, to: ClientId)
    ensures var ids := OTIds(records);
      HideHeadsFor(records, to) == seq(|ids|, i requires 0 <= i < |ids| => HideHead(ToClient(to), ids[i]))
  {
    if records != [] {
      HideHeadsForIds(records[..|records| - 1], to);
    }
  }

  /** List.Find(x => x.clientID == id): the first record with that id. */
  function Find(records: seq<ClientMetaData>, id: ClientId): (r: Option<nat>)
    ensures r.Some? ==> r.value < |records| && records[r.value].clientID == id &&
                        forall j :: 0 <= j < r.value ==> records[j].clientID != id
    ensures r.None? ==> forall j :: 0 <= j < |records| ==> records[j].clientID != id
  {
    if records == [] then None
    else if records[0].clientID == id then Some(0)
    else match Find(records[1..], id)
      case None => None
      case Some(k) => Some(k + 1)
  }

  /**
   * ClientDisconnected: List.Remove of what Find returned. When no record matches, Find's
   * default record has a null name, which no received record has, so nothing is removed.
   */
  function RemoveFound(records: seq<ClientMetaData>, id: ClientId): (r: seq<ClientMetaData>)
    ensures (forall j :: 0 <= j < |records| ==> records[j].clientID != id) ==> r == records
  {
    match Find(records, id)
      case None => records
      case Some(k) => records[..k] + records[k + 1..]
  }

  /** Removal drops the first record with the id and keeps every other record in order. */
  lemma RemoveFoundFirst(records: seq<ClientMetaData>, id: ClientId, k: nat)
    requires k < |records| && records[k].clientID == id
    requires forall j :: 0 <= j < k ==> records[j].clientID != id
    ensures |RemoveFound(records, id)| == |records| - 1
    ensures forall j :: 0 <= j < k ==> RemoveFound(records, id)[j] == records[j]
    ensures forall j :: k < j < |records| ==> RemoveFound(records, id)[j - 1] == records[j]
  {
    var r := Find(records, id);
    assert r.Some?;
    assert r.value == k;
  }

  // ---------------------------------------------------------------- the component

  class ClientMetaDataHolder {
    const net: NetworkRuntime
    const clientLSLPorts: seq<int>
    const LSLHostName: string
    var clientMetaDataList: seq<ClientMetaData>
    var connectedLSLClients: int

    constructor (net: NetworkRuntime, clientLSLPorts: seq<int>, LSLHostName: string)
      ensures this.net == net && this.clientLSLPorts == clientLSLPorts && this.LSLHostName == LSLHostName
      ensures clientMetaDataList == [] && connectedLSLClients == 0
    {
      this.net := net;
      this.clientLSLPorts := clientLSLPorts;
      this.LSLHostName := LSLHostName;
      clientMetaDataList := [];
      connectedLSLClients := 0;
    }

    /** Whether the HoloLens branch of MetaDataHandler can index the port list with counter `n`. */
    predicate PortAvailable(n: int)
    {
      0 <= n < |clientLSLPorts|
    }

    /**
     * The reply to one metadata record from `sender`, with `n` HoloLens clients served so far:
     * a HideHead to everyone for an Optitrack client, the n-th port for a HoloLens client, and
     * nothing for a server record or when the port list is exhausted.
     */
    function Reply(sender: ClientId, rec: ClientMetaData, n: int): seq<Message>
    {
      if rec.clientType == OTCLIENT then [HideHead(ToAll, rec.clientID)]
      else if rec.clientType == HLCLIENT && PortAvailable(n) then [LSLPort(sender, clientLSLPorts[n], LSLHostName)]
      else []
    }

    /** The counter after one record: it counts the HoloLens clients that were given a port. */
    function Served(rec: ClientMetaData, n: int): int
    {
      if rec.clientType == HLCLIENT && PortAvailable(n) then n + 1 else n
    }

    /** The replies to a run of (sender, record) messages handled in order from counter `n`. */
    function Replies(msgs: seq<(ClientId, ClientMetaData)>, n: int): seq<Message>
      decreases |msgs|
    {
      if msgs == [] then []
      else Reply(msgs[0].0, msgs[0].1, n) + Replies(msgs[1..], Served(msgs[0].1, n))
    }

    /** The senders of the HoloLens records, in order. */
    static function HLSenders(msgs: seq<(ClientId, ClientMetaData)>): (ss: seq<ClientId>)
      ensures |ss| <= |msgs|
    {
      if msgs == [] then []
      else (if msgs[0].1.clientType == HLCLIENT then [msgs[0].0] else []) + HLSenders(msgs[1..])
    }

    /** The LSLPort messages among `ms`, in order. */
    static function PortMessages(ms: seq<Message>): seq<Message>
    {
      if ms == [] then []
      else (if ms[0].key == LSLPortKey then [ms[0]] else []) + PortMessages(ms[1..])
    }

    static lemma {:induction false} PortMessagesAppend(a: seq<Message>, b: seq<Message>)
      ensures PortMessages(a + b) == PortMessages(a) + PortMessages(b)
      decreases |a|
    {
      if a != [] {
        assert (a + b)[0] == a[0] && (a + b)[1..] == a[1..] + b;
        PortMessagesAppend(a[1..], b);
      } else {
        assert a + b == b;
      }
    }

    /**
     * The k-th HoloLens client to send metadata is told port clientLSLPorts[n + k], starting
     * from counter `n`, as long as the list has that many ports; Optitrack and server records
     * consume no port.
     */
    lemma {:induction false} NthHoloLensGetsNthPort(msgs: seq<(ClientId, ClientMetaData)>, n: int)
      requires 0 <= n && n + |HLSenders(msgs)| <= |clientLSLPorts|
      ensures PortMessages(Replies(msgs, n)) == PortsFrom(HLSenders(msgs), n)
      decreases |msgs|
    {
      if msgs != [] {
        var (sender, rec) := msgs[0];
        var m := Served(rec, n);
        var rest := msgs[1..];
        NthHoloLensGetsNthPort(rest, m);
        PortMessagesAppend(Reply(sender, rec, n), Replies(rest, m));
        assert Replies(msgs, n) == Reply(sender, rec, n) + Replies(rest, m);
        if rec.clientType == HLCLIENT {
          assert HLSenders(msgs) == [sender] + HLSenders(rest);
          PortsFromCons(sender, HLSenders(rest), n);
        } else {
          assert HLSenders(msgs) == HLSenders(rest);
          assert PortMessages(Reply(sender, rec, n)) == [] by {
            assert PortMessages([HideHead(ToAll, rec.clientID)]) == [];
          }
        }
      }
    }

    /** The port messages for the HoloLens senders `hl`, the i-th told port clientLSLPorts[n + i]. */
    function PortsFrom(hl: seq<ClientId>, n: int): seq<Message>
      requires 0 <= n && n + |hl| <= |clientLSLPorts|
    {
      seq(|hl|, i requires 0 <= i < |hl| => LSLPort(hl[i], clientLSLPorts[n + i], LSLHostName))
    }

    lemma PortsFromCons(sender: ClientId, hl: seq<ClientId>, n: int)
      requires 0 <= n && n + 1 + |hl| <= |clientLSLPorts|
      ensures PortsFrom([sender] + hl, n) == [LSLPort(sender, clientLSLPorts[n], LSLHostName)] + PortsFrom(hl, n + 1)
    {
      var a := PortsFrom([sender] + hl, n);
      var b := [LSLPort(sender, clientLSLPorts[n], LSLHostName)] + PortsFrom(hl, n + 1);
      assert forall i :: 1 <= i < |a| ==> a[i] == b[i];
    }

    /**
     * MetaDataHandler: reads (clientID, device type, device name), appends the record, then
     * answers as Reply says and counts a served HoloLens client. When the port list is
     * exhausted, indexing it throws after the record was stored: `aborted` reports that.
     */
    method MetaDataHandler(sender: ClientId, reader: Reader) returns (aborted: bool)
      requires reader.pos + 3 <= |reader.data|
      requires reader.data[reader.pos].U64? && reader.data[reader.pos + 1].I32? && reader.data[reader.pos + 2].Str?
      modifies reader, this, net
      ensures reader.pos == old(reader.pos) + 3
      ensures var k := old(reader.pos);
        var rec := ClientMetaData(reader.data[k].u, reader.data[k + 1].i, reader.data[k + 2].s);
        && clientMetaDataList == old(clientMetaDataList) + [rec]
        && (aborted <==> rec.clientType == HLCLIENT && !PortAvailable(old(connectedLSLClients)))
        && net.outbox == old(net.outbox) + Reply(sender, rec, old(connectedLSLClients))
        && connectedLSLClients == Served(rec, old(connectedLSLClients))
      ensures net.log == old(net.log) && net.Session() == old(net.Session())
    {
      var clientID := reader.ReadULong();
      var deviceType := reader.ReadInt();
      var deviceName := reader.ReadString();
      clientMetaDataList := clientMetaDataList + [ClientMetaData(clientID, deviceType, deviceName)];
      aborted := false;
      if deviceType == OTCLIENT {
        net.SendToAll(HideHeadKey, [U64(clientID)], Reliable);
      }
      if deviceType == HLCLIENT {
        if !(0 <= connectedLSLClients < |clientLSLPorts|) {
          aborted := true;
          return;
        }
        var port := clientLSLPorts[connectedLSLClients];
        connectedLSLClients := connectedLSLClients + 1;
        net.Send(LSLPortKey, sender, [I32(port), Str(LSLHostName)], Reliable);
      }
    }

    /** ClientConnected: the new client gets one HideHead per stored Optitrack record. */
    method ClientConnected(obj: ClientId)
      modifies net
      ensures net.outbox == old(net.outbox) + HideHeadsFor(clientMetaDataList, obj)
      ensures net.log == old(net.log) && net.Session() == old(net.Session())
    {
      var records := clientMetaDataList;
      for i := 0 to |records|
        invariant net.outbox == old(net.outbox) + HideHeadsFor(records[..i], obj)
        invariant net.log == old(net.log) && net.Session() == old(net.Session())
      {
        assert records[..i + 1][..i] == records[..i];
        if records[i].clientType == OTCLIENT {
          net.Send(HideHeadKey, obj, [U64(records[i].clientID)], Reliable);
        }
      }
      assert records[..|records|] == records;
    }

    /** ClientDisconnected: the first record with the id leaves the table; the counter stays. */
    method ClientDisconnected(clientID: ClientId)
      modifies this
      ensures clientMetaDataList == RemoveFound(old(clientMetaDataList), clientID)
      ensures connectedLSLClients == old(connectedLSLClients)
    {
      clientMetaDataList := RemoveFound(clientMetaDataList, clientID);
    }
  }
}
