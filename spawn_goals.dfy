/**
 * SpawnGoalSender: the server numbers the connected HoloLens clients 1, 2, ... in connection
 * order and tells each its player number.
 */
module SpawnGoals {
  import opened Wire
  import opened Runtime
  import opened Roles
  import opened Wrappers
  import opened ClientMeta

  const SpawnGoalsKey := "SpawnGoals"

  /**
   * The device type the server sees for a client: that of its first metadata record, or the
   * default record's SERVER type when it has none.
   */
  function TypeOf(records: seq<ClientMetaData>, id: ClientId): (d: DeviceType)
    ensures (forall j :: 0 <= j < |records| ==> records[j].clientID != id) ==> d == SERVER
    ensures d == HLCLIENT ==> exists j :: 0 <= j < |records| && records[j].clientID == id && records[j].clientType == HLCLIENT
  {
    match Find(records, id)
      case None => SERVER
      case Some(k) => records[k].clientType
  }

  /** The connected clients the server takes for HoloLens clients, in connection order. */
  function HoloLensIds(ids: seq<ClientId>, records: seq<ClientMetaData>): (hl: seq<ClientId>)
    ensures |hl| <= |ids|
  {
    if ids == [] then []
    else
      var last := ids[|ids| - 1];
      HoloLensIds(ids[..|ids| - 1], records) + (if TypeOf(records, last) == HLCLIENT then [last] else [])
  }

  /** The SpawnGoals message telling client `to` its player number. */
  function SpawnGoal(to: ClientId, playerID: int): Message
  {
    Message(SpawnGoalsKey, ToClient(to), [I32(playerID)], Reliable)
  }

  /** The i-th HoloLens client, counting from 0, is player i + 1. */
  function GoalMessages(hl: seq<ClientId>): seq<Message>
  {
    seq(|hl|, i requires 0 <= i < |hl| => SpawnGoal(hl[i], i + 1))
  }

  /** The next HoloLens client is the next player. */
  lemma GoalMessagesSnoc(hl: seq<ClientId>, id: ClientId)
    ensures GoalMessages(hl + [id]) == GoalMessages(hl) + [SpawnGoal(id, |hl| + 1)]
  {
  }

  /** A client is numbered exactly when it is connected and its record says HoloLens. */
  lemma {:induction false} HoloLensIdsMembers(ids: seq<ClientId>, records: seq<ClientMetaData>, id: ClientId)
    ensures id in HoloLensIds(ids, records) <==> id in ids && TypeOf(records, id) == HLCLIENT
  {
    if ids != [] {
      var init := ids[..|ids| - 1];
      HoloLensIdsMembers(init, records, id);
      assert ids == init + [ids[|ids| - 1]];
    }
  }

  /** Distinct connected ids give distinct numbered clients, so no two clients share a player number. */
  lemma {:induction false} HoloLensIdsDistinct(ids: seq<ClientId>, records: seq<ClientMetaData>)
    requires forall i, j :: 0 <= i < j < |ids| ==> ids[i] != ids[j]
    ensures var hl := HoloLensIds(ids, records);
      forall i, j :: 0 <= i < j < |hl| ==> hl[i] != hl[j]
  {
    if ids != [] {
      var init := ids[..|ids| - 1];
      var last := ids[|ids| - 1];
      HoloLensIdsDistinct(init, records);
      HoloLensIdsMembers(init, records, last);
      assert last !in init by {
        forall k | 0 <= k < |init|
          ensures init[k] != last
        {
          assert ids[k] == init[k];
        }
      }
      var hl0 := HoloLensIds(init, records);
      assert last !in hl0;
      var hl := HoloLensIds(ids, records);
      assert forall i :: 0 <= i < |hl0| ==> hl[i] == hl0[i];
    }
  }

  /**
   * SendSpawnGoals: walks the connected clients in order and sends each client whose record
   * says HoloLens the next player number, starting at 1.
   */
  method SendSpawnGoals(net: NetworkRuntime, holder: ClientMetaDataHolder)
    modifies net
    ensures net.outbox == old(net.outbox) + GoalMessages(HoloLensIds(old(net.connectedClientsIds), holder.clientMetaDataList))
    ensures net.log == old(net.log) && net.Session() == old(net.Session())
  {
    var ids := net.connectedClientsIds;
    var records := holder.clientMetaDataList;
    var playerID := 1;
    for i := 0 to |ids|
      invariant playerID == |HoloLensIds(ids[..i], records)| + 1
      invariant net.outbox == old(net.outbox) + GoalMessages(HoloLensIds(ids[..i], records))
      invariant net.log == old(net.log) && net.Session() == old(net.Session())
    {
      assert ids[..i + 1][..i] == ids[..i];
      var hl := HoloLensIds(ids[..i], records);
      if TypeOf(records, ids[i]) == HLCLIENT {
        net.Send(SpawnGoalsKey, ids[i], [I32(playerID)], Reliable);
        assert HoloLensIds(ids[..i + 1], records) == hl + [ids[i]];
        GoalMessagesSnoc(hl, ids[i]);
        playerID := playerID + 1;
      } else {
        assert HoloLensIds(ids[..i + 1], records) == hl;
      }
    }
    assert ids[..|ids|] == ids;
  }
}
