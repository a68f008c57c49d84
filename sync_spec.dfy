/**
 * The pure part of the synchronisation protocol: channel names, payload layouts, the
 * relay fan-out, the dirty-delta send tests and the decoding of combined pose records.
 */
module SyncSpec {
  import opened Wrappers
  import opened Wire
  import opened Scene
  import opened Codec
  import opened Runtime
  import opened Roles
  import Text
  import ClientDebug

  const OwnershipRequestKey := "OwnershipRequest"
  const TransformSyncKey := "TransformSync"
  const TransformSyncScaleKey := "ScaleTransformSync"
  const CombinedTransformSyncKey := "CombinedTransformSync"
  const TrackedStateChangeKey := "TrackingStateChange"
  const SyncedSpawnKey := "SpawnSynchronizedObject"

  /** TrackingState, as its integer code; a cast from the wire may hold any other code. */
  type TrackingState = int
  const UNTRACKED: TrackingState := 0
  const OTTRACKED: TrackingState := 1

  /** TrackingState.ToString(): a declared member's name, any other code in decimal. */
  function TrackingStateName(s: TrackingState): (n: string)
    ensures n != [] && forall k :: 0 <= k < |n| ==> n[k] != ' '
  {
    if s == UNTRACKED then "UNTRACKED" else if s == OTTRACKED then "OTTRACKED" else Text.IntToString(s)
  }

  /** Different tracking states print differently. */
  lemma TrackingStateNameInjective(a: TrackingState, b: TrackingState)
    ensures TrackingStateName(a) == TrackingStateName(b) <==> a == b
  {
    Text.IntToStringInjective(a, b);
    if a != UNTRACKED && a != OTTRACKED {
      assert TrackingStateName(a)[0] == '-' || '0' <= TrackingStateName(a)[0] <= '9';
    }
    if b != UNTRACKED && b != OTTRACKED {
      assert TrackingStateName(b)[0] == '-' || '0' <= TrackingStateName(b)[0] <= '9';
    }
  }

  /** The text of the first debug line of ChangeTrackedState. */
  function TrackingNoticeText(state: TrackingState, id: int): string
  {
    "Received tracking state " + TrackingStateName(state) + " for ID" + Text.IntToString(id)
  }

  /**
   * The debug lines ChangeTrackedState sends the server: the state and id received, then,
   * on entering OTTRACKED, a second line; nothing while messaging is down.
   */
  function TrackingNotices(ready: bool, state: TrackingState, id: int): (ms: seq<Message>)
    ensures |ms| == (if !ready then 0 else if state == OTTRACKED then 2 else 1)
    ensures forall k :: 0 <= k < |ms| ==>
      && ms[k].key == ClientDebug.ClientDebugKey && ms[k].dest == ToClient(ServerClientId)
      && ms[k].delivery == Reliable && |ms[k].payload| == 2 && ms[k].payload[0] == I32(ClientDebug.SeverityDebug)
  {
    if !ready then []
    else
      [ClientDebug.DebugMessage(ClientDebug.SeverityDebug, TrackingNoticeText(state, id))] +
      (if state == OTTRACKED
       then [ClientDebug.DebugMessage(ClientDebug.SeverityDebug, "Received OT_tracked State for " + Text.IntToString(id))]
       else [])
  }

  /** A space-free word between a common prefix and a separator starting with a space is recovered whole. */
  lemma {:induction false} WordBeforeSeparator(p: string, a: string, b: string, q: string, c: string, d: string)
    requires forall k :: 0 <= k < |a| ==> a[k] != ' '
    requires forall k :: 0 <= k < |b| ==> b[k] != ' '
    requires q != [] && q[0] == ' '
    requires p + a + q + c == p + b + q + d
    ensures a == b && c == d
  {
    var t1, t2 := p + a + q + c, p + b + q + d;
    assert t1[|p| + |a|] == ' ' && t2[|p| + |b|] == ' ';
    assert a == t1[|p|..|p| + |a|] == t2[|p|..|p| + |b|] == b;
    assert c == t1[|p| + |a| + |q|..] == t2[|p| + |b| + |q|..] == d;
  }

  /** The first debug line names the state and the id unambiguously. */
  lemma TrackingNoticeDetermines(s1: TrackingState, id1: int, s2: TrackingState, id2: int)
    ensures TrackingNoticeText(s1, id1) == TrackingNoticeText(s2, id2) <==> s1 == s2 && id1 == id2
  {
    if TrackingNoticeText(s1, id1) == TrackingNoticeText(s2, id2) {
      WordBeforeSeparator("Received tracking state ", TrackingStateName(s1), TrackingStateName(s2), " for ID",
        Text.IntToString(id1), Text.IntToString(id2));
      TrackingStateNameInjective(s1, s2);
      Text.IntToStringInjective(id1, id2);
    }
  }


  // ---------------------------------------------------------------- send tests

  /** `1/TickRate` on the unsigned tick rate: integer division. */
  function SyncInterval(tickRate: nat): nat
    requires tickRate > 0
  {
    1 / tickRate
  }

  /** The interval is one second at a tick rate of 1 and zero at every faster rate. */
  lemma SyncIntervalValues(tickRate: nat)
    requires tickRate > 0
    ensures SyncInterval(tickRate) == if tickRate == 1 then 1 else 0
  {
  }

  /** Measured change since the last send: position distance, rotation angle, scale distance. */
  datatype Deltas = Deltas(position: real, rotation: real, scale: real)
  datatype Precision = Precision(position: real, rotation: real, scale: real)

  /** The position/rotation/scale thresholds of SynchronizedObject's inspector defaults. */
  const DefaultPrecision := Precision(0.05, 1.0, 0.05)

  /**
   * The send test of a single object as the code parses it: the timer guards only the
   * position term, while a rotation or (with scale sync) scale change sends at once.
   */
  predicate NeedsUpdate(elapsed: real, interval: nat, d: Deltas, p: Precision, syncScale: bool)
  {
    (elapsed > interval as real && d.position > p.position) || d.rotation > p.rotation ||
    (syncScale && d.scale > p.scale)
  }

  /** Nothing beyond the thresholds: no message, however long since the last one. */
  lemma NoChangeNoUpdate(elapsed: real, interval: nat, d: Deltas, p: Precision, syncScale: bool)
    requires d.position <= p.position && d.rotation <= p.rotation && d.scale <= p.scale
    ensures !NeedsUpdate(elapsed, interval, d, p, syncScale)
  {
  }

  /** A rotation beyond its threshold sends even before the interval has elapsed. */
  lemma RotationIgnoresInterval(elapsed: real, interval: nat, d: Deltas, p: Precision, syncScale: bool)
    requires d.rotation > p.rotation
    ensures NeedsUpdate(elapsed, interval, d, p, syncScale)
  {
  }

  /** A position change alone sends only once the elapsed time exceeds the interval. */
  lemma PositionWaitsForInterval(elapsed: real, interval: nat, d: Deltas, p: Precision, syncScale: bool)
    requires d.rotation <= p.rotation && (syncScale ==> d.scale <= p.scale)
    ensures NeedsUpdate(elapsed, interval, d, p, syncScale) <==>
      elapsed > interval as real && d.position > p.position
  {
  }

  // ---------------------------------------------------------------- payloads

  /** Where an owner's sync goes: the server broadcasts, a client sends to the server. */
  function SyncDest(deviceType: DeviceType): (d: Dest)
    ensures d == ToAll <==> IsServer(deviceType)
    ensures d != ToAll ==> d == ToClient(ServerClientId)
  {
    if IsServer(deviceType) then ToAll else ToClient(ServerClientId)
  }

  function TransformSyncPayload(id: ObjectId, p: Pose): (vs: seq<Value>)
    ensures |vs| == 8
  {
    [U64(id)] + EncodePose(p)
  }

  function FullSyncPayload(id: ObjectId, p: FullPose): (vs: seq<Value>)
    ensures |vs| == 11
  {
    [U64(id)] + EncodeFull(p)
  }

  function StatePayload(id: ObjectId, state: TrackingState, trackingID: int): seq<Value>
  {
    [U64(id), I32(state), I32(trackingID)]
  }

  function SpawnPayload(name: string, state: TrackingState, trackingID: int): seq<Value>
  {
    [Str(name), I32(state), I32(trackingID)]
  }

  function OwnershipPayload(clientID: ClientId, objectID: ObjectId): seq<Value>
  {
    [U64(clientID), U64(objectID)]
  }

  /** A client's reliable request to the server that `objectID` be handed to `clientID`. */
  function OwnershipRequest(clientID: ClientId, objectID: ObjectId): Message
  {
    Message(OwnershipRequestKey, ToClient(ServerClientId), OwnershipPayload(clientID, objectID), Reliable)
  }

  /** The pose decoded from a TransformSync payload: exactly the pose that was sent. */
  lemma TransformSyncRoundTrip(id: ObjectId, p: Pose)
    ensures TransformSyncPayload(id, p)[0] == U64(id)
    ensures FloatsAt(TransformSyncPayload(id, p), 1, 7)
    ensures DecodePose(TransformSyncPayload(id, p), 1) == p
  {
    DecodeEncodePose([U64(id)], p, []);
    assert [U64(id)] + EncodePose(p) + [] == TransformSyncPayload(id, p);
  }

  /** The full transform decoded from a ScaleTransformSync payload: exactly what was sent. */
  lemma FullSyncRoundTrip(id: ObjectId, p: FullPose)
    ensures FullSyncPayload(id, p)[0] == U64(id)
    ensures FloatsAt(FullSyncPayload(id, p), 1, 10)
    ensures DecodeFull(FullSyncPayload(id, p), 1) == p
  {
    DecodeEncodeFull([U64(id)], p, []);
    assert [U64(id)] + EncodeFull(p) + [] == FullSyncPayload(id, p);
  }

  // ---------------------------------------------------------------- relay fan-out

  /** The connected clients other than the sender, in connection order. */
  function Others(ids: seq<ClientId>, sender: ClientId): seq<ClientId>
  {
    if ids == [] then []
    else
      var last := ids[|ids| - 1];
      Others(ids[..|ids| - 1], sender) + (if last != sender then [last] else [])
  }

  /** One message per connected client other than the sender. */
  function Relays(ids: seq<ClientId>, sender: ClientId, key: string, payload: seq<Value>, delivery: Delivery): (ms: seq<Message>)
    ensures |ms| == |Others(ids, sender)|
  {
    if ids == [] then []
    else
      var last := ids[|ids| - 1];
      Relays(ids[..|ids| - 1], sender, key, payload, delivery) +
      (if last != sender then [Message(key, ToClient(last), payload, delivery)] else [])
  }

  /** Appending `xs + ys` in one step or in two leaves the same sequence. */
  lemma AppendSplit<T>(prior: seq<T>, xs: seq<T>, ys: seq<T>, whole: seq<T>)
    requires whole == xs + ys
    ensures prior + whole == prior + xs + ys
  {
  }

  /** One more connected client considered: after the messages `prior`, it is relayed to unless it is the sender. */
  lemma RelayStep(prior: seq<Message>, ids: seq<ClientId>, i: nat, sender: ClientId, key: string, payload: seq<Value>,
                  delivery: Delivery)
    requires i < |ids|
    ensures Others(ids[..i + 1], sender) == Others(ids[..i], sender) + (if ids[i] != sender then [ids[i]] else [])
    ensures prior + Relays(ids[..i + 1], sender, key, payload, delivery) ==
      prior + Relays(ids[..i], sender, key, payload, delivery) +
      (if ids[i] != sender then [Message(key, ToClient(ids[i]), payload, delivery)] else [])
  {
    assert ids[..i + 1][..i] == ids[..i];
  }

  /**
   * Relay fan-out: the i-th relay goes to the i-th other client with the same payload, the
   * sender is never addressed, and every other client gets as many relays as it appears.
   */
  lemma {:induction false} RelayFanOut(ids: seq<ClientId>, sender: ClientId, key: string, payload: seq<Value>, delivery: Delivery)
    ensures forall i :: 0 <= i < |Others(ids, sender)| ==>
      Relays(ids, sender, key, payload, delivery)[i] == Message(key, ToClient(Others(ids, sender)[i]), payload, delivery)
    ensures sender !in Others(ids, sender)
    ensures forall c :: c != sender ==> multiset(Others(ids, sender))[c] == multiset(ids)[c]
  {
    if ids != [] {
      var init := ids[..|ids| - 1];
      RelayFanOut(init, sender, key, payload, delivery);
      assert ids == init + [ids[|ids| - 1]];
      assert multiset(ids) == multiset(init) + multiset{ids[|ids| - 1]};
    }
  }

  // ---------------------------------------------------------------- combined records

  datatype Record = Record(name: string, pose: Pose)

  /** The (name, 7-float pose) records of a CombinedTransformSync payload. */
  function EncodeRecords(rs: seq<Record>): (vs: seq<Value>)
    ensures |vs| == 8 * |rs|
  {
    if rs == [] then [] else [Str(rs[0].name)] + EncodePose(rs[0].pose) + EncodeRecords(rs[1..])
  }

  lemma {:induction false} EncodeRecordsSnoc(rs: seq<Record>, r: Record)
    ensures EncodeRecords(rs + [r]) == EncodeRecords(rs) + [Str(r.name)] + EncodePose(r.pose)
    decreases |rs|
  {
    if rs != [] {
      assert (rs + [r])[1..] == rs[1..] + [r];
      EncodeRecordsSnoc(rs[1..], r);
    } else {
      assert rs + [r] == [r];
    }
  }

  /** Appending one record to an encoding after a fixed header. */
  lemma AppendRecord(head: seq<Value>, rs: seq<Record>, i: nat)
    requires i < |rs|
    ensures head + EncodeRecords(rs[..i + 1]) == head + EncodeRecords(rs[..i]) + [Str(rs[i].name)] + EncodePose(rs[i].pose)
  {
    assert rs[..i + 1] == rs[..i] + [rs[i]];
    EncodeRecordsSnoc(rs[..i], rs[i]);
  }

  function CombinedPayload(id: ObjectId, count: int, rs: seq<Record>): seq<Value>
  {
    [U64(id), I32(count)] + EncodeRecords(rs)
  }

  // ---------------------------------------------------------------- combined send

  /** The records of a combined send: each key with the local pose of its transform. */
  function SendRecords(keys: seq<string>, fs: seq<FullPose>): seq<Record>
    requires |keys| == |fs|
  {
    seq(|keys|, i requires 0 <= i < |keys| => Record(keys[i], Pose(fs[i].position, fs[i].rotation)))
  }

  /** The sender's buffer after the id, the count and the first `i` records. */
  function CombinedUpTo(id: ObjectId, count: int, keys: seq<string>, fs: seq<FullPose>, i: nat): seq<Value>
    requires i <= |keys| && i <= |fs|
  {
    if i == 0 then [U64(id), I32(count)]
    else CombinedUpTo(id, count, keys, fs, i - 1) + [Str(keys[i - 1])] + EncodePose(Pose(fs[i - 1].position, fs[i - 1].rotation))
  }

  /** The buffer after `i` records is the combined payload of the first `i` keys. */
  lemma {:induction false} CombinedUpToPayload(id: ObjectId, count: int, keys: seq<string>, fs: seq<FullPose>, i: nat)
    requires i <= |keys| == |fs|
    ensures CombinedUpTo(id, count, keys, fs, i) == CombinedPayload(id, count, SendRecords(keys, fs)[..i])
  {
    var rs := SendRecords(keys, fs);
    if i == 0 {
      assert rs[..0] == [];
    } else {
      CombinedUpToPayload(id, count, keys, fs, i - 1);
      AppendRecord([U64(id), I32(count)], rs, i - 1);
    }
  }

  /** lastSentPositionByName after the first `i` keys took their children's positions. */
  function SentPositions(m: map<string, Vec3>, keys: seq<string>, fs: seq<FullPose>, i: nat): map<string, Vec3>
    requires i <= |keys| && i <= |fs|
  {
    if i == 0 then m else SentPositions(m, keys, fs, i - 1)[keys[i - 1] := fs[i - 1].position]
  }

  /** lastSentRotationByName after the first `i` keys took their children's rotations. */
  function SentRotations(m: map<string, Quat>, keys: seq<string>, fs: seq<FullPose>, i: nat): map<string, Quat>
    requires i <= |keys| && i <= |fs|
  {
    if i == 0 then m else SentRotations(m, keys, fs, i - 1)[keys[i - 1] := fs[i - 1].rotation]
  }

  /** lastSentScaleByName after the first `i` keys took their children's scales. */
  function SentScales(m: map<string, Vec3>, keys: seq<string>, fs: seq<FullPose>, i: nat): map<string, Vec3>
    requires i <= |keys| && i <= |fs|
  {
    if i == 0 then m else SentScales(m, keys, fs, i - 1)[keys[i - 1] := fs[i - 1].scale]
  }

  /** The updated dictionaries hold the old keys and the sent ones. */
  lemma {:induction false} SentPositionsKeys(m: map<string, Vec3>, keys: seq<string>, fs: seq<FullPose>, i: nat)
    requires i <= |keys| && i <= |fs|
    ensures SentPositions(m, keys, fs, i).Keys == m.Keys + KeySet(keys[..i])
  {
    if i > 0 {
      SentPositionsKeys(m, keys, fs, i - 1);
      assert keys[..i][..i - 1] == keys[..i - 1];
    } else {
      assert keys[..0] == [];
    }
  }

  lemma {:induction false} SentRotationsKeys(m: map<string, Quat>, keys: seq<string>, fs: seq<FullPose>, i: nat)
    requires i <= |keys| && i <= |fs|
    ensures SentRotations(m, keys, fs, i).Keys == m.Keys + KeySet(keys[..i])
  {
    if i > 0 {
      SentRotationsKeys(m, keys, fs, i - 1);
      assert keys[..i][..i - 1] == keys[..i - 1];
    } else {
      assert keys[..0] == [];
    }
  }

  lemma {:induction false} SentScalesKeys(m: map<string, Vec3>, keys: seq<string>, fs: seq<FullPose>, i: nat)
    requires i <= |keys| && i <= |fs|
    ensures SentScales(m, keys, fs, i).Keys == m.Keys + KeySet(keys[..i])
  {
    if i > 0 {
      SentScalesKeys(m, keys, fs, i - 1);
      assert keys[..i][..i - 1] == keys[..i - 1];
    } else {
      assert keys[..0] == [];
    }
  }

  /** With keys listed once each, every sent key holds its own child's value. */
  lemma {:induction false} SentPositionsAt(m: map<string, Vec3>, keys: seq<string>, fs: seq<FullPose>, i: nat, j: nat)
    requires i <= |keys| && i <= |fs| && j < i
    requires forall a, b :: 0 <= a < b < |keys| ==> keys[a] != keys[b]
    ensures keys[j] in SentPositions(m, keys, fs, i) && SentPositions(m, keys, fs, i)[keys[j]] == fs[j].position
  {
    if j < i - 1 {
      SentPositionsAt(m, keys, fs, i - 1, j);
    }
  }

  lemma {:induction false} SentRotationsAt(m: map<string, Quat>, keys: seq<string>, fs: seq<FullPose>, i: nat, j: nat)
    requires i <= |keys| && i <= |fs| && j < i
    requires forall a, b :: 0 <= a < b < |keys| ==> keys[a] != keys[b]
    ensures keys[j] in SentRotations(m, keys, fs, i) && SentRotations(m, keys, fs, i)[keys[j]] == fs[j].rotation
  {
    if j < i - 1 {
      SentRotationsAt(m, keys, fs, i - 1, j);
    }
  }

  lemma {:induction false} SentScalesAt(m: map<string, Vec3>, keys: seq<string>, fs: seq<FullPose>, i: nat, j: nat)
    requires i <= |keys| && i <= |fs| && j < i
    requires forall a, b :: 0 <= a < b < |keys| ==> keys[a] != keys[b]
    ensures keys[j] in SentScales(m, keys, fs, i) && SentScales(m, keys, fs, i)[keys[j]] == fs[j].scale
  {
    if j < i - 1 {
      SentScalesAt(m, keys, fs, i - 1, j);
    }
  }

  /** The names listed in `keys`. */
  function KeySet(keys: seq<string>): (ks: set<string>)
    ensures forall i :: 0 <= i < |keys| ==> keys[i] in ks
  {
    if keys == [] then {} else KeySet(keys[..|keys| - 1]) + {keys[|keys| - 1]}
  }

  /** Exactly the listed names are in the key set. */
  lemma {:induction false} KeySetMembers(keys: seq<string>, n: string)
    ensures n in KeySet(keys) <==> n in keys
  {
    if keys != [] {
      KeySetMembers(keys[..|keys| - 1], n);
      assert keys == keys[..|keys| - 1] + [keys[|keys| - 1]];
    }
  }

  /** A list names as many keys as it has entries exactly when no name occurs twice. */
  lemma {:induction false} KeySetDistinct(keys: seq<string>)
    ensures |KeySet(keys)| == |keys| <==> forall i, j :: 0 <= i < j < |keys| ==> keys[i] != keys[j]
  {
    if keys != [] {
      var init, last := keys[..|keys| - 1], keys[|keys| - 1];
      KeySetDistinct(init);
      KeySetMembers(init, last);
      if last in init {
        var j :| 0 <= j < |init| && init[j] == last;
        assert keys[j] == keys[|keys| - 1];
        assert |KeySet(keys)| != |keys| by {
          assert KeySet(keys) == KeySet(init);
          assert |KeySet(init)| <= |init| by {
            KeySetSize(init);
          }
        }
      } else {
        assert last !in KeySet(init);
        assert |KeySet(keys)| == |KeySet(init)| + 1;
        if forall a, b :: 0 <= a < b < |init| ==> init[a] != init[b] {
          forall a, b | 0 <= a < b < |keys|
            ensures keys[a] != keys[b]
          {
            if b == |keys| - 1 {
              assert keys[a] == init[a];
            } else {
              assert keys[a] == init[a] && keys[b] == init[b];
            }
          }
        } else {
          var a, b :| 0 <= a < b < |init| && init[a] == init[b];
          assert keys[a] == keys[b];
        }
      }
    }
  }

  lemma {:induction false} KeySetSize(keys: seq<string>)
    ensures |KeySet(keys)| <= |keys|
  {
    if keys != [] {
      KeySetSize(keys[..|keys| - 1]);
    }
  }

  /**
   * The composite's dictionaries: `keys` lists the position dictionary's keys once each, in
   * enumeration order; the rotation dictionary has the same keys, the scale dictionary no
   * others, and every key is among the resolvable `names`.
   */
  ghost predicate KeyedDictionaries(keys: seq<string>, p: map<string, Vec3>, r: map<string, Quat>,
                                    s: map<string, Vec3>, names: set<string>)
  {
    && |KeySet(keys)| == |keys|
    && p.Keys == KeySet(keys)
    && r.Keys == KeySet(keys)
    && s.Keys <= KeySet(keys)
    && KeySet(keys) <= names
  }

  /** A dictionary keyed by a list of distinct names has one entry per name. */
  lemma KeyedCount<V>(m: map<string, V>, keys: seq<string>)
    requires m.Keys == KeySet(keys) && |KeySet(keys)| == |keys|
    ensures |m| == |keys|
  {
    assert |m| == |m.Keys|;
  }

  /** Each key's entries are the position, rotation and scale at its index of `fs`. */
  ghost predicate HoldsSent(keys: seq<string>, fs: seq<FullPose>, p: map<string, Vec3>, r: map<string, Quat>,
                            s: map<string, Vec3>)
  {
    && |fs| == |keys|
    && forall i :: 0 <= i < |keys| ==>
         && keys[i] in p && p[keys[i]] == fs[i].position
         && keys[i] in r && r[keys[i]] == fs[i].rotation
         && keys[i] in s && s[keys[i]] == fs[i].scale
  }

  /**
   * A combined send keeps the dictionaries keyed by `keys`, gives every key a scale, and leaves
   * each key holding its own child's values.
   */
  lemma SentDictionaries(p: map<string, Vec3>, r: map<string, Quat>, s: map<string, Vec3>,
                         keys: seq<string>, fs: seq<FullPose>, names: set<string>)
    requires |fs| == |keys| && KeyedDictionaries(keys, p, r, s, names)
    ensures var p', r', s' := SentPositions(p, keys, fs, |keys|), SentRotations(r, keys, fs, |keys|),
                              SentScales(s, keys, fs, |keys|);
      && KeyedDictionaries(keys, p', r', s', names)
      && s'.Keys == KeySet(keys)
      && HoldsSent(keys, fs, p', r', s')
  {
    SentKeyed(p, r, s, keys, fs, names);
    SentHolds(p, r, s, keys, fs);
  }

  /** The sent keys were already keys, so the dictionaries keep their key set; the scales gain every key. */
  lemma SentKeyed(p: map<string, Vec3>, r: map<string, Quat>, s: map<string, Vec3>,
                  keys: seq<string>, fs: seq<FullPose>, names: set<string>)
    requires |fs| == |keys| && KeyedDictionaries(keys, p, r, s, names)
    ensures var p', r', s' := SentPositions(p, keys, fs, |keys|), SentRotations(r, keys, fs, |keys|),
                              SentScales(s, keys, fs, |keys|);
      && KeyedDictionaries(keys, p', r', s', names)
      && s'.Keys == KeySet(keys)
  {
    assert keys[..|keys|] == keys;
    SentPositionsKeys(p, keys, fs, |keys|);
    assert SentPositions(p, keys, fs, |keys|).Keys == KeySet(keys);
    SentRotationsKeys(r, keys, fs, |keys|);
    assert SentRotations(r, keys, fs, |keys|).Keys == KeySet(keys);
    SentScalesKeys(s, keys, fs, |keys|);
  }

  /** Distinct keys each end holding their own child's values. */
  lemma SentHolds(p: map<string, Vec3>, r: map<string, Quat>, s: map<string, Vec3>,
                  keys: seq<string>, fs: seq<FullPose>)
    requires |fs| == |keys| && |KeySet(keys)| == |keys|
    ensures HoldsSent(keys, fs, SentPositions(p, keys, fs, |keys|), SentRotations(r, keys, fs, |keys|),
                      SentScales(s, keys, fs, |keys|))
  {
    var p', r', s' := SentPositions(p, keys, fs, |keys|), SentRotations(r, keys, fs, |keys|),
                      SentScales(s, keys, fs, |keys|);
    KeySetDistinct(keys);
    forall i | 0 <= i < |keys|
      ensures && keys[i] in p' && p'[keys[i]] == fs[i].position
              && keys[i] in r' && r'[keys[i]] == fs[i].rotation
              && keys[i] in s' && s'[keys[i]] == fs[i].scale
    {
      SentPositionsAt(p, keys, fs, |keys|, i);
      SentRotationsAt(r, keys, fs, |keys|, i);
      SentScalesAt(s, keys, fs, |keys|, i);
    }
  }

  /** A record as the receiver applies it: the pose is read only when the name resolves. */
  datatype Applied = Applied(name: string, pose: Option<Pose>)

  /**
   * The receiver's reading of one record at index `k`: a name, then its pose when the name
   * resolves; an unresolvable name is read alone. None when a value of the wrong kind is met.
   * Returns the record and the index after it.
   */
  function DecodeOne(data: seq<Value>, k: nat, names: set<string>): Option<(Applied, nat)>
  {
    if k < |data| && data[k].Str? then
      if data[k].s in names then
        if FloatsAt(data, k + 1, 7) then Some((Applied(data[k].s, Some(DecodePose(data, k + 1))), k + 8))
        else None
      else Some((Applied(data[k].s, None), k + 1))
    else None
  }

  /** The receiver's reading of `n` records from index `k`, one after the other (none for n <= 0). */
  function DecodeRecords(data: seq<Value>, k: nat, n: int, names: set<string>): Option<(seq<Applied>, nat)>
    decreases if n > 0 then n else 0
  {
    if n <= 0 then Some(([], k))
    else
      match DecodeRecords(data, k, n - 1, names)
      case None => None
      case Some((as_, e)) =>
        match DecodeOne(data, e, names)
        case None => None
        case Some((a, next)) => Some((as_ + [a], next))
  }

  function AllApplied(rs: seq<Record>): (as_: seq<Applied>)
    ensures |as_| == |rs|
    ensures forall i :: 0 <= i < |rs| ==> as_[i] == Applied(rs[i].name, Some(rs[i].pose))
  {
    if rs == [] then [] else [Applied(rs[0].name, Some(rs[0].pose))] + AllApplied(rs[1..])
  }

  /** Reading one more record extends what the first `n` records gave. */
  lemma DecodeRecordsNext(data: seq<Value>, k: nat, n: nat, names: set<string>, as_: seq<Applied>, e: nat, a: Applied, next: nat)
    requires DecodeRecords(data, k, n, names) == Some((as_, e)) && DecodeOne(data, e, names) == Some((a, next))
    ensures DecodeRecords(data, k, n + 1, names) == Some((as_ + [a], next))
  {
  }

  /** The records `rs` lie in `data` from index `k`, 8 values each: a name, then its 7 pose values. */
  ghost predicate RecordsAt(data: seq<Value>, k: nat, rs: seq<Record>)
  {
    && k + 8 * |rs| <= |data|
    && forall j :: 0 <= j < |rs| ==>
         data[k + 8 * j] == Str(rs[j].name) && data[k + 8 * j + 1..k + 8 * j + 8] == EncodePose(rs[j].pose)
  }

  /** A pose encoded just after index `k` of `data` decodes there. */
  lemma DecodePoseAfter(data: seq<Value>, k: nat, p: Pose)
    requires k + 8 <= |data| && data[k + 1..k + 8] == EncodePose(p)
    ensures FloatsAt(data, k + 1, 7) && DecodePose(data, k + 1) == p
  {
    assert data == data[..k + 1] + EncodePose(p) + data[k + 8..];
    DecodeEncodePose(data[..k + 1], p, data[k + 8..]);
  }

  /** A resolvable record lying at index `e` reads back as its name and pose, 8 values on. */
  lemma DecodeOneAt(data: seq<Value>, e: nat, r: Record, names: set<string>)
    requires e + 8 <= |data| && data[e] == Str(r.name) && data[e + 1..e + 8] == EncodePose(r.pose)
    requires r.name in names
    ensures DecodeOne(data, e, names) == Some((Applied(r.name, Some(r.pose)), e + 8))
  {
    DecodePoseAfter(data, e, r.pose);
  }

  /** The records but the last still lie in `data`, and the last one lies right after them. */
  lemma RecordsAtInit(data: seq<Value>, k: nat, rs: seq<Record>)
    requires rs != [] && RecordsAt(data, k, rs)
    ensures RecordsAt(data, k, rs[..|rs| - 1])
    ensures var e := k + 8 * (|rs| - 1);
      e + 8 <= |data| && data[e] == Str(rs[|rs| - 1].name) && data[e + 1..e + 8] == EncodePose(rs[|rs| - 1].pose)
  {
    var init := rs[..|rs| - 1];
    forall j | 0 <= j < |init|
      ensures data[k + 8 * j] == Str(init[j].name) && data[k + 8 * j + 1..k + 8 * j + 8] == EncodePose(init[j].pose)
    {
      assert init[j] == rs[j];
    }
  }

  lemma AllAppliedPrefix(rs: seq<Record>, i: nat)
    requires 0 < i <= |rs|
    ensures AllApplied(rs[..i]) == AllApplied(rs[..i - 1]) + [Applied(rs[i - 1].name, Some(rs[i - 1].pose))]
  {
  }

  /** One more resolvable record, lying right after the first `i - 1`, extends their reading. */
  lemma DecodeRecordsAtStep(data: seq<Value>, k: nat, rs: seq<Record>, i: nat, names: set<string>)
    requires 0 < i <= |rs| && rs[i - 1].name in names
    requires var e := k + 8 * (i - 1);
      e + 8 <= |data| && data[e] == Str(rs[i - 1].name) && data[e + 1..e + 8] == EncodePose(rs[i - 1].pose)
    requires DecodeRecords(data, k, i - 1, names) == Some((AllApplied(rs[..i - 1]), k + 8 * (i - 1)))
    ensures DecodeRecords(data, k, i, names) == Some((AllApplied(rs[..i]), k + 8 * i))
  {
    var e, r := k + 8 * (i - 1), rs[i - 1];
    DecodeOneAt(data, e, r, names);
    DecodeRecordsNext(data, k, i - 1, names, AllApplied(rs[..i - 1]), e, Applied(r.name, Some(r.pose)), e + 8);
    AllAppliedPrefix(rs, i);
  }

  /** The first `i` of the records lying in `data`, all resolvable, are read back exactly. */
  lemma {:induction false} DecodeRecordsAt(data: seq<Value>, k: nat, rs: seq<Record>, i: nat, names: set<string>)
    requires RecordsAt(data, k, rs) && i <= |rs|
    requires forall j :: 0 <= j < |rs| ==> rs[j].name in names
    ensures DecodeRecords(data, k, i, names) == Some((AllApplied(rs[..i]), k + 8 * i))
  {
    if i > 0 {
      DecodeRecordsAt(data, k, rs, i - 1, names);
      DecodeRecordsAtStep(data, k, rs, i, names);
    }
  }

  /** The `j`-th record of EncodeRecords occupies values `8 * j` to `8 * j + 8`. */
  lemma {:induction false} EncodeRecordsAt(rs: seq<Record>, j: nat)
    requires j < |rs|
    ensures EncodeRecords(rs)[8 * j..8 * j + 8] == [Str(rs[j].name)] + EncodePose(rs[j].pose)
    decreases j
  {
    var e := EncodeRecords(rs);
    assert e == [Str(rs[0].name)] + EncodePose(rs[0].pose) + EncodeRecords(rs[1..]);
    if j > 0 {
      EncodeRecordsAt(rs[1..], j - 1);
      assert e[8 * j..8 * j + 8] == EncodeRecords(rs[1..])[8 * (j - 1)..8 * (j - 1) + 8];
    }
  }

  /** The records of EncodeRecords lie after whatever precedes them. */
  lemma RecordsAtEncoded(head: seq<Value>, rs: seq<Record>)
    ensures RecordsAt(head + EncodeRecords(rs), |head|, rs)
  {
    var data := head + EncodeRecords(rs);
    forall j | 0 <= j < |rs|
      ensures data[|head| + 8 * j] == Str(rs[j].name)
      ensures data[|head| + 8 * j + 1..|head| + 8 * j + 8] == EncodePose(rs[j].pose)
    {
      EncodeRecordsAt(rs, j);
      var slot := data[|head| + 8 * j..|head| + 8 * j + 8];
      assert slot == EncodeRecords(rs)[8 * j..8 * j + 8];
      assert data[|head| + 8 * j + 1..|head| + 8 * j + 8] == slot[1..];
    }
  }

  /** The combined message round trip: id, count and every (name, pose) record come back. */
  lemma CombinedRoundTrip(id: ObjectId, rs: seq<Record>, names: set<string>)
    requires forall i :: 0 <= i < |rs| ==> rs[i].name in names
    ensures CombinedPayload(id, |rs|, rs)[0] == U64(id) && CombinedPayload(id, |rs|, rs)[1] == I32(|rs|)
    ensures DecodeRecords(CombinedPayload(id, |rs|, rs), 2, |rs|, names) ==
      Some((AllApplied(rs), |CombinedPayload(id, |rs|, rs)|))
  {
    var payload := CombinedPayload(id, |rs|, rs);
    assert |payload| == 2 + 8 * |rs|;
    RecordsAtEncoded([U64(id), I32(|rs|)], rs);
    DecodeRecordsAt(payload, 2, rs, |rs|, names);
    assert rs[..|rs|] == rs;
  }

  /**
   * An unresolved name leaves its pose unread: a one-record message stops 7 values short of
   * its end, and in a longer message the next name read meets a float.
   */
  lemma UnresolvedPoseLeftUnread(id: ObjectId, a: Record, b: Record, names: set<string>)
    requires a.name !in names
    ensures DecodeRecords(CombinedPayload(id, 1, [a]), 2, 1, names) == Some(([Applied(a.name, None)], 3))
    ensures |CombinedPayload(id, 1, [a])| == 3 + 7
    ensures DecodeRecords(CombinedPayload(id, 2, [a, b]), 2, 2, names) == None
  {
    var one := CombinedPayload(id, 1, [a]);
    assert EncodeRecords([a]) == [Str(a.name)] + EncodePose(a.pose) + EncodeRecords([]);
    assert one[2] == Str(a.name);
    assert DecodeOne(one, 2, names) == Some((Applied(a.name, None), 3));
    DecodeRecordsNext(one, 2, 0, names, [], 2, Applied(a.name, None), 3);
    assert [] + [Applied(a.name, None)] == [Applied(a.name, None)];
    var two := CombinedPayload(id, 2, [a, b]);
    assert EncodeRecords([a, b]) == [Str(a.name)] + EncodePose(a.pose) + EncodeRecords([b]);
    assert two[2] == Str(a.name) && two[3].F32?;
    DecodeRecordsNext(two, 2, 0, names, [], 2, Applied(a.name, None), 3);
  }

  /**
   * The shape of what the receiver reads: one record per count (none for a count below
   * one), never moving backwards, and a record carries a pose exactly when its name resolves.
   */
  lemma {:induction false} DecodeRecordsShape(data: seq<Value>, k: nat, n: int, names: set<string>)
    requires DecodeRecords(data, k, n, names).Some?
    ensures var (as_, e) := DecodeRecords(data, k, n, names).value;
      && |as_| == (if n > 0 then n else 0) && k <= e
      && forall i :: 0 <= i < |as_| ==> (as_[i].pose.Some? <==> as_[i].name in names)
    decreases if n > 0 then n else 0
  {
    if n > 0 {
      DecodeRecordsShape(data, k, n - 1, names);
    }
  }

  /** A loop that stops at the count, or never starts when it is not positive, has read them all. */
  lemma DecodeRecordsUpTo(data: seq<Value>, k: nat, i: nat, n: int, names: set<string>)
    requires if 0 < n then i == n else i == 0
    ensures DecodeRecords(data, k, i, names) == DecodeRecords(data, k, n, names)
  {
  }

  /** While `n` records read, so do the first `i` of them, and the next one after those. */
  lemma {:induction false} DecodeRecordsPrefix(data: seq<Value>, k: nat, n: int, i: nat, names: set<string>)
    requires i < n && DecodeRecords(data, k, n, names).Some?
    ensures DecodeRecords(data, k, i, names).Some?
    ensures DecodeOne(data, DecodeRecords(data, k, i, names).value.1, names).Some?
    decreases n
  {
    if i < n - 1 {
      DecodeRecordsPrefix(data, k, n - 1, i, names);
    }
  }

  /** Keys of a dictionary updated by the resolved records: new names join at the end. */
  function AppendNewNames(order: seq<string>, as_: seq<Applied>): seq<string>
  {
    if as_ == [] then order
    else
      var prior := AppendNewNames(order, as_[..|as_| - 1]);
      var a := as_[|as_| - 1];
      if a.pose.Some? && a.name !in prior then prior + [a.name] else prior
  }

  /** lastSentPosition after the resolved records: each name holds its last record's position. */
  function ApplyPositions(m: map<string, Vec3>, as_: seq<Applied>): map<string, Vec3>
  {
    if as_ == [] then m
    else
      var prior := ApplyPositions(m, as_[..|as_| - 1]);
      var a := as_[|as_| - 1];
      if a.pose.Some? then prior[a.name := a.pose.value.position] else prior
  }

  function ApplyRotations(m: map<string, Quat>, as_: seq<Applied>): map<string, Quat>
  {
    if as_ == [] then m
    else
      var prior := ApplyRotations(m, as_[..|as_| - 1]);
      var a := as_[|as_| - 1];
      if a.pose.Some? then prior[a.name := a.pose.value.rotation] else prior
  }

  /** The pose of the last resolved record named `n`, if any. */
  function LastPose(as_: seq<Applied>, n: string): Option<Pose>
  {
    if as_ == [] then None
    else
      var a := as_[|as_| - 1];
      if a.name == n && a.pose.Some? then a.pose else LastPose(as_[..|as_| - 1], n)
  }

  /** A name has a last pose exactly when some record of that name carries a pose. */
  lemma {:induction false} LastPoseSome(as_: seq<Applied>, n: string)
    ensures LastPose(as_, n).Some? <==> exists i :: 0 <= i < |as_| && as_[i].name == n && as_[i].pose.Some?
    decreases |as_|
  {
    if as_ != [] {
      var init := as_[..|as_| - 1];
      LastPoseSome(init, n);
      assert forall i :: 0 <= i < |init| ==> init[i] == as_[i];
    }
  }

  /**
   * New names join the dictionary order at its end, once each: the existing order is kept
   * as a prefix, no name repeats, and the names are the old ones plus every resolved one.
   */
  lemma {:induction false} AppendNewNamesSpec(order: seq<string>, as_: seq<Applied>)
    requires forall i, j :: 0 <= i < j < |order| ==> order[i] != order[j]
    ensures var o := AppendNewNames(order, as_);
      && |order| <= |o| && o[..|order|] == order
      && (forall i, j :: 0 <= i < j < |o| ==> o[i] != o[j])
      && (forall x :: x in o <==> x in order || LastPose(as_, x).Some?)
    decreases |as_|
  {
    if as_ != [] {
      AppendNewNamesSpec(order, as_[..|as_| - 1]);
    }
  }

  /** Applying the records sets exactly the resolved names, each to its last record's pose. */
  lemma {:induction false} ApplyIsLastPose(m: map<string, Vec3>, r: map<string, Quat>, as_: seq<Applied>, n: string)
    ensures LastPose(as_, n).Some? ==>
      n in ApplyPositions(m, as_) && n in ApplyRotations(r, as_) &&
      ApplyPositions(m, as_)[n] == LastPose(as_, n).value.position &&
      ApplyRotations(r, as_)[n] == LastPose(as_, n).value.rotation
    ensures LastPose(as_, n).None? ==>
      (n in ApplyPositions(m, as_) <==> n in m) && (n in m ==> ApplyPositions(m, as_)[n] == m[n]) &&
      (n in ApplyRotations(r, as_) <==> n in r) && (n in r ==> ApplyRotations(r, as_)[n] == r[n])
    decreases |as_|
  {
    if as_ != [] {
      ApplyIsLastPose(m, r, as_[..|as_| - 1], n);
    }
  }
  /** Applying one more record is applying it to what the earlier records left. */
  lemma ApplySnoc(m: map<string, Vec3>, r: map<string, Quat>, order: seq<string>, as_: seq<Applied>, a: Applied)
    ensures ApplyPositions(m, as_ + [a]) == ApplyPositions(ApplyPositions(m, as_), [a])
    ensures ApplyRotations(r, as_ + [a]) == ApplyRotations(ApplyRotations(r, as_), [a])
    ensures AppendNewNames(order, as_ + [a]) == AppendNewNames(AppendNewNames(order, as_), [a])
    ensures forall n :: LastPose(as_ + [a], n) == if a.name == n && a.pose.Some? then a.pose else LastPose(as_, n)
  {
    assert (as_ + [a])[..|as_|] == as_;
    assert [a][..0] == [];
  }

  /** A single record: a resolved name takes its pose and joins the order when new; an unresolved one changes nothing. */
  lemma ApplyOne(m: map<string, Vec3>, r: map<string, Quat>, order: seq<string>, a: Applied)
    ensures ApplyPositions(m, [a]) == if a.pose.Some? then m[a.name := a.pose.value.position] else m
    ensures ApplyRotations(r, [a]) == if a.pose.Some? then r[a.name := a.pose.value.rotation] else r
    ensures AppendNewNames(order, [a]) == if a.pose.Some? && a.name !in order then order + [a.name] else order
  {
    assert [a][..0] == [];
    assert ApplyPositions(m, [a][..0]) == m;
    assert ApplyRotations(r, [a][..0]) == r;
    assert AppendNewNames(order, [a][..0]) == order;
  }

  /** A new resolvable name joins the order and both pose dictionaries. */
  lemma KeyedAdd(keys: seq<string>, p: map<string, Vec3>, r: map<string, Quat>, s: map<string, Vec3>,
                 names: set<string>, n: string, v: Vec3, q: Quat)
    requires KeyedDictionaries(keys, p, r, s, names) && n in names && n !in keys
    ensures KeyedDictionaries(keys + [n], p[n := v], r[n := q], s, names)
  {
    var keys' := keys + [n];
    assert keys'[..|keys|] == keys;
    KeySetMembers(keys, n);
    assert KeySet(keys') == KeySet(keys) + {n};
  }

  /** A known name only changes its values. */
  lemma KeyedUpdate(keys: seq<string>, p: map<string, Vec3>, r: map<string, Quat>, s: map<string, Vec3>,
                    names: set<string>, n: string, v: Vec3, q: Quat)
    requires KeyedDictionaries(keys, p, r, s, names) && n in keys
    ensures KeyedDictionaries(keys, p[n := v], r[n := q], s, names)
  {
    KeySetMembers(keys, n);
  }

  /**
   * Receiving a record keeps the dictionaries keyed by their order: a resolved name that is
   * new joins the order and both pose dictionaries, a known one only changes its values.
   */
  lemma KeyedReceive(keys: seq<string>, p: map<string, Vec3>, r: map<string, Quat>, s: map<string, Vec3>,
                     names: set<string>, a: Applied)
    requires KeyedDictionaries(keys, p, r, s, names)
    requires a.pose.Some? ==> a.name in names
    ensures KeyedDictionaries(AppendNewNames(keys, [a]), ApplyPositions(p, [a]), ApplyRotations(r, [a]), s, names)
  {
    ApplyOne(p, r, keys, a);
    if a.pose.Some? {
      var pose := a.pose.value;
      if a.name !in keys {
        KeyedAdd(keys, p, r, s, names, a.name, pose.position, pose.rotation);
      } else {
        KeyedUpdate(keys, p, r, s, names, a.name, pose.position, pose.rotation);
      }
    }
  }

  /** Whatever batch of records decodes, the dictionaries stay keyed by their order within the resolvable names. */
  lemma {:induction false} KeyedAfterRecords(data: seq<Value>, k: nat, n: int, names: set<string>,
                                             keys: seq<string>, p: map<string, Vec3>, r: map<string, Quat>, s: map<string, Vec3>)
    requires KeyedDictionaries(keys, p, r, s, names)
    requires DecodeRecords(data, k, n, names).Some?
    ensures var as_ := DecodeRecords(data, k, n, names).value.0;
      KeyedDictionaries(AppendNewNames(keys, as_), ApplyPositions(p, as_), ApplyRotations(r, as_), s, names)
    decreases if n > 0 then n else 0
  {
    if n > 0 {
      KeyedAfterRecords(data, k, n - 1, names, keys, p, r, s);
      var (as_, e) := DecodeRecords(data, k, n - 1, names).value;
      var (a, next) := DecodeOne(data, e, names).value;
      ApplySnoc(p, r, keys, as_, a);
      KeyedReceive(AppendNewNames(keys, as_), ApplyPositions(p, as_), ApplyRotations(r, as_), s, names, a);
    }
  }
}
