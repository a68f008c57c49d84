# CARL entity synchronisation, modelled in Dafny

CARL is a Unity application in which a server, HoloLens clients (HL) and OptiTrack clients (OT)
share a scene over Unity Netcode. This project models the core of its synchronisation protocol
and the small utilities around it, and proves properties of that model:

- the transform codec (`Codec`): 3-, 7- and 10-float layouts of a Vector3, a pose and a full
  transform, written to and read from a message buffer in local or global space;
- synchronised objects (`Sync.SyncObject`): ownership through the parent chain, the threshold
  test that decides whether a pose is sent, tracking-state changes, recursive ownership
  requests, and the composite "parent" variant that keeps one last-sent pose per child name and
  batches every child into one combined message;
- the object manager (`Sync.Manager`): server-authoritative spawning, the tracked-state,
  pose, full-pose and combined-pose messages with their handlers, the server's relay of each
  message to every connected client except its sender, and ownership requests;
- the server's client-metadata table and LSL port allocation (`ClientMeta`), the numbering of
  goal players (`SpawnGoals`), the ping ring buffer (`Ping`), debug-message framing
  (`ClientDebug`), the device roles (`Roles`);
- the NTP client's request packet and transmit-timestamp decoding (`Ntp`), the UDP stream's
  address and port validation and endpoint reuse (`Udp`);
- the editor's camel-case tokenizer (`CamelCase`), the goal editor's foldout resize and pose
  store (`GoalEditor`), and the Python bridge script's stream lookup and table layout
  (`XdfStreams`).

Netcode is replaced by `Runtime.NetworkRuntime`: every message sent is appended to an `outbox`
(key, destination, payload values, delivery), every log line to a `log`. A message buffer is a
sequence of typed values (`Wire.Value`: a 32-bit float as `bv32`, an int, an unsigned long, a
string); a `Wire.Writer` appends to it and a `Wire.Reader` reads it from a cursor. Floats are
opaque bit patterns, so round trips hold bit for bit. Float geometry (distances, angles, the
component-wise product of scales) is a parameter (`Sync.Geometry`, `mul`), not computed.
Unity transforms are `Scene.Transform` objects whose local and global fields are independent;
setting one frame leaves the other unknown. The registry of spawned objects is a map from
network object id to `Sync.SyncObject`. C# enums read off the wire (tracking state, device
type) are integer codes, because the handlers cast whatever integer arrives.

## Model

| member | source | states |
|---|---|---|
| Wire.ReadFloatsOfFloats | CARL/Assets/Scripts/Universal/SynchronizationUtilities.cs:16-36 | floats written one after the other read back in the same order, wherever they sit in a buffer |
| Codec.EncodeVec3IsFloats | CARL/Assets/Scripts/Universal/SynchronizationUtilities.cs:16-22 | a Vector3 is written as x, y, z: 3 floats, 12 bytes |
| Codec.EncodePoseIsFloats | CARL/Assets/Scripts/Universal/SynchronizationUtilities.cs:46-67 | a pose is written as position x, y, z then rotation x, y, z, w: 7 floats, 28 bytes |
| Codec.EncodeFullIsFloats | CARL/Assets/Scripts/Universal/SynchronizationUtilities.cs:102-131 | a full transform is the pose followed by the scale: 10 floats, 40 bytes |
| Codec.FloatsConcat | CARL/Assets/Scripts/Universal/SynchronizationUtilities.cs:46-67 | writing two float runs one after the other writes their concatenation |
| Codec.DecodeEncodeVec3 | CARL/Assets/Scripts/Universal/SynchronizationUtilities.cs:16-36 | reading a Vector3 where one was written returns the same x, y, z |
| Codec.DecodeEncodePose | CARL/Assets/Scripts/Universal/SynchronizationUtilities.cs:46-94 | reading a pose where one was written returns the same position and rotation |
| Codec.DecodeEncodeFull | CARL/Assets/Scripts/Universal/SynchronizationUtilities.cs:102-169 | reading a full transform where one was written returns the same position, rotation and scale |
| Codec.WriteFloats | CARL/Assets/Scripts/Universal/SynchronizationUtilities.cs:16-22 | the buffer grows by exactly the given floats, in order |
| Codec.ReadFloatsFrom | CARL/Assets/Scripts/Universal/SynchronizationUtilities.cs:29-36 | the floats at the cursor are returned in order and the cursor advances past them |
| Codec.ReadFloatsPrefix | CARL/Assets/Scripts/Universal/SynchronizationUtilities.cs:29-36 | reading one float more yields the shorter read followed by that float |
| Codec.WriteVector3ToStream | CARL/Assets/Scripts/Universal/SynchronizationUtilities.cs:16-22 | appends the vector's 3-float encoding and nothing else |
| Codec.ReadVector3FromStream | CARL/Assets/Scripts/Universal/SynchronizationUtilities.cs:29-36 | returns the vector encoded at the cursor and advances it by 3 values (12 bytes) |
| Codec.WriteTransformPoseToStream | CARL/Assets/Scripts/Universal/SynchronizationUtilities.cs:46-67 | appends the local or the global pose, as asked; the transform is not changed |
| Codec.ReadTransformPoseFromStream | CARL/Assets/Scripts/Universal/SynchronizationUtilities.cs:75-94 | sets the local or the global pose to the pose at the cursor, keeps the local scale, advances 7 values (28 bytes) |
| Codec.WriteFullTransformToStream | CARL/Assets/Scripts/Universal/SynchronizationUtilities.cs:102-131 | appends the local or the global pose and scale, scale last |
| Codec.ReadFullTransformFromStream | CARL/Assets/Scripts/Universal/SynchronizationUtilities.cs:139-169 | a local read sets position, rotation and scale; a global read sets the global pose and a local scale equal to the read scale times the parent's lossy scale component-wise, or the read scale itself without a parent; advances 10 values (40 bytes) |
| Codec.PoseRoundTrip | CARL/Assets/Scripts/Universal/SynchronizationUtilities.cs:48-57 | a local pose written from one transform and read into another gives the target the source's local position and rotation bit for bit |
| Codec.FullRoundTrip | CARL/Assets/Scripts/Universal/SynchronizationUtilities.cs:102-157 | the same for the full transform: the target's local position, rotation and scale equal the source's |
| SyncSpec.SyncIntervalValues | CARL/Assets/Scripts/Universal/SynchronizedObject.cs:84 | `1 / TickRate` is integer division: one second at tick rate 1, zero at every faster rate |
| SyncSpec.NoChangeNoUpdate | CARL/Assets/Scripts/Universal/SynchronizedObject.cs:84-87 | with no delta over its threshold no update is needed, however long since the last send |
| SyncSpec.RotationIgnoresInterval | CARL/Assets/Scripts/Universal/SynchronizedObject.cs:84-87 | a rotation over its threshold needs an update even before the interval has passed (the interval guards only the position term) |
| SyncSpec.PositionWaitsForInterval | CARL/Assets/Scripts/Universal/SynchronizedObject.cs:84-87 | when rotation and scale are within their thresholds, an update is needed iff the interval has passed and the position moved too far |
| SyncSpec.SyncDest | CARL/Assets/Scripts/Universal/SynchronizedObject.cs:91-114 | the server sends to all clients; any other device sends to the server's client id |
| SyncSpec.TrackingStateName | CARL/Assets/Scripts/Universal/SynchronizedObject.cs:176-178 | TrackingState.ToString(): a declared state's name, any other code in decimal, never empty and without spaces |
| SyncSpec.TrackingStateNameInjective | CARL/Assets/Scripts/Universal/SynchronizedObject.cs:129 | different tracking states print differently |
| SyncSpec.TrackingNotices | CARL/Assets/Scripts/Universal/SynchronizedObject.cs:129-132 | while messaging is up, one debug line to the server, two on entering OTTRACKED, each a reliable ClientDebug message of severity Debug; none otherwise |
| SyncSpec.TrackingNoticeDetermines | CARL/Assets/Scripts/Universal/SynchronizedObject.cs:129 | the first debug line determines the tracking state and id it reports |
| SyncSpec.TransformSyncPayload | CARL/Assets/Scripts/Universal/SynchronizedObjectManager.cs:168-183 | a pose sync carries 8 values: the object id and the 7-float pose |
| SyncSpec.FullSyncPayload | CARL/Assets/Scripts/Universal/SynchronizedObjectManager.cs:284-299 | a full sync carries 11 values: the object id and the 10-float transform |
| SyncSpec.TransformSyncRoundTrip | CARL/Assets/Scripts/Universal/SynchronizedObjectManager.cs:168-199 | the handler reads back the sender's object id and pose |
| SyncSpec.FullSyncRoundTrip | CARL/Assets/Scripts/Universal/SynchronizedObjectManager.cs:284-313 | the full-sync handler reads back the sender's object id and full transform |
| SyncSpec.Relays | CARL/Assets/Scripts/Universal/SynchronizedObjectManager.cs:201-210 | one relayed message per connected client other than the sender |
| SyncSpec.RelayStep | CARL/Assets/Scripts/Universal/SynchronizedObjectManager.cs:201-210 | each pass of the relay loop adds one message exactly when that client is not the sender |
| SyncSpec.RelayFanOut | CARL/Assets/Scripts/Universal/SynchronizedObjectManager.cs:201-210 | the i-th relay goes to the i-th client other than the sender, with the same key, payload and delivery; the sender never receives its own message; every other client is addressed as often as it is connected |
| SyncSpec.EncodeRecords | CARL/Assets/Scripts/Universal/SynchronizedObjectManager.cs:224-233 | every child record takes 8 values: its name and its pose |
| SyncSpec.EncodeRecordsSnoc | CARL/Assets/Scripts/Universal/SynchronizedObjectManager.cs:224-233 | one more record appends its name and then its pose |
| SyncSpec.CombinedUpToPayload | CARL/Assets/Scripts/Universal/SynchronizedObjectManager.cs:219-241 | after i passes of the send loop the buffer holds the id, the count and the first i records |
| SyncSpec.SentPositionsKeys | CARL/Assets/Scripts/Universal/SynchronizedObjectManager.cs:224-233 | after the send loop the position dictionary's keys are its old keys plus the keys sent |
| SyncSpec.SentRotationsKeys | CARL/Assets/Scripts/Universal/SynchronizedObjectManager.cs:224-233 | the same for the rotation dictionary |
| SyncSpec.SentScalesKeys | CARL/Assets/Scripts/Universal/SynchronizedObjectManager.cs:224-233 | the same for the scale dictionary |
| SyncSpec.SentPositionsAt | CARL/Assets/Scripts/Universal/SynchronizedObjectManager.cs:224-233 | with distinct keys, every key sent maps to the position sent for it |
| SyncSpec.SentRotationsAt | CARL/Assets/Scripts/Universal/SynchronizedObjectManager.cs:224-233 | with distinct keys, every key sent maps to the rotation sent for it |
| SyncSpec.SentScalesAt | CARL/Assets/Scripts/Universal/SynchronizedObjectManager.cs:224-233 | with distinct keys, every key sent maps to the scale sent for it |
| SyncSpec.KeySet | CARL/Assets/Scripts/Universal/SynchronizedObjectParent.cs:69 | every key of the key order is in the dictionaries' key set |
| SyncSpec.KeySetMembers | CARL/Assets/Scripts/Universal/SynchronizedObjectParent.cs:69 | a name is a dictionary key iff it occurs in the key order |
| SyncSpec.KeySetDistinct | CARL/Assets/Scripts/Universal/SynchronizedObjectParent.cs:69 | the key set is as large as the key order iff the key order repeats no name |
| SyncSpec.KeySetSize | CARL/Assets/Scripts/Universal/SynchronizedObjectParent.cs:69 | the key set is never larger than the key order |
| SyncSpec.KeyedCount | CARL/Assets/Scripts/Universal/SynchronizedObjectManager.cs:223 | a dictionary keyed by a repetition-free key order has as many entries as the count written |
| SyncSpec.SentDictionaries | CARL/Assets/Scripts/Universal/SynchronizedObjectManager.cs:224-233 | the send loop keeps the three dictionaries on one key set, covers every key with a scale, and leaves every key holding what was sent |
| SyncSpec.SentKeyed | CARL/Assets/Scripts/Universal/SynchronizedObjectManager.cs:224-233 | the send loop keeps the three dictionaries on one key set and gives every key a scale |
| SyncSpec.SentHolds | CARL/Assets/Scripts/Universal/SynchronizedObjectManager.cs:224-233 | after the send loop every key's position, rotation and scale are the child's values that were sent |
| SyncSpec.AllApplied | CARL/Assets/Scripts/Universal/SynchronizedObjectManager.cs:249-260 | records that all resolve are all applied, one per record, with their poses |
| SyncSpec.DecodeRecordsNext | CARL/Assets/Scripts/Universal/SynchronizedObjectManager.cs:249-260 | reading one more record continues where the previous records ended |
| SyncSpec.DecodePoseAfter | CARL/Assets/Scripts/Universal/SynchronizedObjectManager.cs:253-257 | the pose after a record's name reads back as the pose written there |
| SyncSpec.DecodeOneAt | CARL/Assets/Scripts/Universal/SynchronizedObjectManager.cs:249-260 | a record whose name resolves is read with its pose and takes 8 values |
| SyncSpec.RecordsAtInit | CARL/Assets/Scripts/Universal/SynchronizedObjectManager.cs:224-233 | the records written are laid out one after another, the last one 8 values after the one before |
| SyncSpec.AllAppliedPrefix | CARL/Assets/Scripts/Universal/SynchronizedObjectManager.cs:249-260 | applying one more record appends that record's application |
| SyncSpec.DecodeRecordsAtStep | CARL/Assets/Scripts/Universal/SynchronizedObjectManager.cs:249-260 | one more resolvable record, where it was written, extends the records read by one |
| SyncSpec.DecodeRecordsAt | CARL/Assets/Scripts/Universal/SynchronizedObjectManager.cs:249-260 | records laid out as the sender writes them, all resolvable, are read back in order, 8 values each |
| SyncSpec.EncodeRecordsAt | CARL/Assets/Scripts/Universal/SynchronizedObjectManager.cs:224-233 | the j-th record starts at value 8j |
| SyncSpec.RecordsAtEncoded | CARL/Assets/Scripts/Universal/SynchronizedObjectManager.cs:224-233 | the encoded records after any header are laid out record by record |
| SyncSpec.CombinedRoundTrip | CARL/Assets/Scripts/Universal/SynchronizedObjectManager.cs:219-260 | when every name resolves, the handler reads back the sender's id, count and records, and ends exactly at the end of the message |
| SyncSpec.UnresolvedPoseLeftUnread | CARL/Assets/Scripts/Universal/SynchronizedObjectManager.cs:253-259 | an unresolved name's pose is not consumed: a one-record message is read only to value 3 of 10, and in a two-record message the next name lands on a float, so the message cannot be read |
| SyncSpec.DecodeRecordsShape | CARL/Assets/Scripts/Universal/SynchronizedObjectManager.cs:249-260 | exactly `count` names are read (none for a non-positive count), and a record carries a pose iff its name resolves |
| SyncSpec.DecodeRecordsUpTo | CARL/Assets/Scripts/Universal/SynchronizedObjectManager.cs:249 | the loop runs `count` times, or not at all for a non-positive count |
| SyncSpec.DecodeRecordsPrefix | CARL/Assets/Scripts/Universal/SynchronizedObjectManager.cs:249-260 | when all records can be read, so can every prefix and the record after it |
| SyncSpec.LastPoseSome | CARL/Assets/Scripts/Universal/SynchronizedObjectManager.cs:249-260 | a name ends with a pose iff some record of that name carried one |
| SyncSpec.AppendNewNamesSpec | CARL/Assets/Scripts/Universal/SynchronizedObjectManager.cs:255-257 | names are added to the key order only at its end, never twice, and exactly those that received a pose |
| SyncSpec.ApplyIsLastPose | CARL/Assets/Scripts/Universal/SynchronizedObjectManager.cs:255-257 | after the records, a name's last-sent position and rotation are its last received pose, or unchanged when it received none |
| SyncSpec.ApplySnoc | CARL/Assets/Scripts/Universal/SynchronizedObjectManager.cs:249-260 | applying records one at a time equals applying them together |
| SyncSpec.ApplyOne | CARL/Assets/Scripts/Universal/SynchronizedObjectManager.cs:253-259 | one resolved record sets its name's position and rotation and adds a new name at the end; an unresolved one changes nothing |
| SyncSpec.KeyedAdd | CARL/Assets/Scripts/Universal/SynchronizedObjectManager.cs:255-257 | adding a new resolvable name to position and rotation keeps the dictionaries consistent with the key order |
| SyncSpec.KeyedUpdate | CARL/Assets/Scripts/Universal/SynchronizedObjectManager.cs:255-257 | overwriting a known name keeps the dictionaries consistent |
| SyncSpec.KeyedReceive | CARL/Assets/Scripts/Universal/SynchronizedObjectManager.cs:253-259 | applying one received record keeps the dictionaries consistent |
| SyncSpec.KeyedAfterRecords | CARL/Assets/Scripts/Universal/SynchronizedObjectManager.cs:249-260 | applying all received records keeps the dictionaries consistent (a scale is never added on receipt) |
| Sync.FindPrefab | CARL/Assets/Scripts/Universal/SynchronizedObjectManager.cs:95 | the first prefab with the name, or none iff no prefab has it |
| Sync.SyncObject.Lineage | CARL/Assets/Scripts/Universal/SynchronizedObject.cs:59-75 | the object and every synchronised object up its parent chain |
| Sync.SyncObject.OwnedIffAncestorOwned | CARL/Assets/Scripts/Universal/SynchronizedObject.cs:59-75 | an object counts as owned iff it or some synchronised object up its parent chain is owned by the local client |
| Sync.SyncObject.OwnedTreeSilent | CARL/Assets/Scripts/Universal/SynchronizedObject.cs:156-173 | an owned object requests nothing, for itself or any child |
| Sync.SyncObject.OwnedChildrenSilent | CARL/Assets/Scripts/Universal/SynchronizedObject.cs:164-172 | the children of an owned object request nothing |
| Sync.SyncObject.OwnedChildSilent | CARL/Assets/Scripts/Universal/SynchronizedObject.cs:164-172 | each single child of an owned object requests nothing, for itself or below |
| Sync.SyncObject.GetOwnership | CARL/Assets/Scripts/Universal/SynchronizedObject.cs:156-173 | on an HL or OT client, one ownership request per unowned object visited, recursing into the children when asked; on the server nothing is sent and the requests take effect locally: an object not owned here before is handed to the local client in the registry, no object gets any other owner, and every other object keeps its state when the call is not recursive or the tree is linked and this object is the one registered under its id |
| Sync.SyncObject.ChildrenGetOwnership | CARL/Assets/Scripts/Universal/SynchronizedObject.cs:164-172 | the recursive step: the children's requests in child order; on the server no object gets an owner other than the local client, and nothing changes when this object was already owned here and the tree is linked |
| Sync.SyncObject.CheckForTransformUpdate | CARL/Assets/Scripts/Universal/SynchronizedObject.cs:80-117 | without an update only the sync timer grows; with one, exactly one message goes to the server or, from the server, to all: a full sync iff syncScale, else a pose sync; the last-sent values come from the manager's transform and the timer is reset |
| Sync.SyncObject.GateManipulator | CARL/Assets/Scripts/Universal/SynchronizedObject.cs:50-55 | the manipulator is enabled iff the object is not tracked by OptiTrack |
| Sync.SyncObject.Update | CARL/Assets/Scripts/Universal/SynchronizedObject.cs:44-56 | an unowned object changes nothing and sends nothing; an owned one runs the check: without an update only the sync timer grows, with one exactly one full sync (syncScale) or pose sync goes to the server or, from the server, to all, the last-sent values become the manager's transform and the timer restarts; the manipulator is then enabled iff not OTTRACKED |
| Sync.ReportTrackingState | CARL/Assets/Scripts/Universal/SynchronizedObject.cs:129-132 | the outbox grows by exactly the tracking notices: the state line while messaging is up, and the OT_tracked line after it on entering OTTRACKED; the log and session are untouched |
| Sync.SyncObject.ChangeTrackedState | CARL/Assets/Scripts/Universal/SynchronizedObject.cs:125-150 | state and tracking id become the arguments; entering OTTRACKED with a spawner sets spawnOngoing to -1 and appends the object to the spawner's list; while messaging is up one debug line naming the state and id goes to the server, and a second on entering OTTRACKED; then, with propagate, one reliable state message goes to the server or, from the server, to all |
| Sync.SyncObject.Resolve | CARL/Assets/Scripts/Universal/SynchronizedObjectParent.cs:71 | a resolvable name resolves to a transform of the hierarchy |
| Sync.SyncObject.OtherTarget | CARL/Assets/Scripts/Universal/SynchronizedObjectManager.cs:253-257 | two different names resolve to different child transforms, so applying one leaves the other alone |
| Sync.SyncObject.ReceivePose | CARL/Assets/Scripts/Universal/SynchronizedObjectManager.cs:253-257 | the child takes the pose at the cursor, keeps its scale; the name's last-sent position and rotation become that pose and a new name joins the key order at its end |
| Sync.SyncObject.ValidScannable | CARL/Assets/Scripts/Universal/SynchronizedObjectParent.cs:69-80 | every key of a consistent parent resolves and has a last-sent position and rotation |
| Sync.SyncObject.FirstStopFrom | CARL/Assets/Scripts/Universal/SynchronizedObjectParent.cs:69-80 | the first key from j on at which the loop stops (a moved child or a failing scale lookup), or the end when none is; every key before it is within its thresholds |
| Sync.SyncObject.ParentThrowsIffScaleMissing | CARL/Assets/Scripts/Universal/SynchronizedObjectParent.cs:67-80 | the check throws iff it is due and the scan reaches, before any moved child, a key whose scale lookup fails |
| Sync.SyncObject.ScaleMissingIff | CARL/Assets/Scripts/Universal/SynchronizedObjectParent.cs:72-74 | the lookup of a key's last-sent scale is reached and fails iff scale sync is on, the key has no last-sent scale, and its position and rotation are within their thresholds |
| Sync.SyncObject.ParentSendsNowIffMoved | CARL/Assets/Scripts/Universal/SynchronizedObjectParent.cs:65-83 | when every key has a last-sent scale (after Start or a send) the check never throws, and a combined sync is sent iff the check interval has passed and some key's child is over a threshold |
| Sync.SyncObject.FullsOf | CARL/Assets/Scripts/Universal/SynchronizedObjectManager.cs:224-233 | one current child transform per key |
| Sync.SyncObject.FullsOfAt | CARL/Assets/Scripts/Universal/SynchronizedObjectManager.cs:224-233 | the i-th is the local transform of the child the i-th key resolves to |
| Sync.SyncObject.ParentStart | CARL/Assets/Scripts/Universal/SynchronizedObjectParent.cs:24-40 | the dictionaries hold, for each distinct name in the hierarchy, the first such child's local pose and scale; the key order is the names in first-seen order; the dictionaries share one key set |
| Sync.SyncObject.ScanIfDue | CARL/Assets/Scripts/Universal/SynchronizedObjectParent.cs:67-80 | the key loop runs only once the check is due and stops at the first key that is not within its thresholds: an update is needed iff that key's child moved beyond a threshold, and the lookup throws iff that key lacks a last-sent scale under scale sync |
| Sync.SyncObject.CheckDue | CARL/Assets/Scripts/Universal/SynchronizedObjectParent.cs:64-82 | both timers grow; the check runs only once the interval has passed; the scan stops at the first moved child, which is logged as needing an update, or throws at a key whose scale lookup fails; the check timer restarts unless it threw |
| Sync.SyncObject.ParentCheckForTransformUpdate | CARL/Assets/Scripts/Universal/SynchronizedObjectParent.cs:62-109 | a failing scale lookup throws with both timers grown and nothing sent or logged; with no key moved, or before the interval, only the timers change; otherwise exactly one combined sync of every key's current child pose goes to the server or to all, identically whether or not scale is synchronised, and the dictionaries then hold what was sent |
| Sync.SyncObject.SendBatch | CARL/Assets/Scripts/Universal/SynchronizedObjectParent.cs:83-108 | one combined sync to the right destination, the sync timer reset, the dictionaries holding what was sent |
| Sync.SyncObject.ParentUpdate | CARL/Assets/Scripts/Universal/SynchronizedObjectParent.cs:42-57 | an unowned parent changes nothing; an owned one runs the batched check with its exact outcome (thrown, timers only, or one combined sync of every key's child pose with the dictionaries holding what was sent); unless the check threw, every manipulator of the hierarchy is then enabled iff not OTTRACKED, and after a throw none changes |
| Sync.SyncObject.GateManipulators | CARL/Assets/Scripts/Universal/SynchronizedObjectParent.cs:49-56 | every manipulator in the hierarchy is enabled iff the parent is not OTTRACKED |
| Sync.NamesOf | CARL/Assets/Scripts/Universal/SynchronizedObjectParent.cs:31-39 | every child's name is among the hierarchy's names |
| Sync.NamesOfMembers | CARL/Assets/Scripts/Universal/SynchronizedObjectParent.cs:31-39 | a name is among them iff some child has it |
| Sync.NamesOfStep | CARL/Assets/Scripts/Universal/SynchronizedObjectParent.cs:31-39 | each pass of the loop adds its child's name |
| Sync.FirstKeysNames | CARL/Assets/Scripts/Universal/SynchronizedObjectParent.cs:31-39 | the keys collected name each distinct child name exactly once |
| Sync.FirstPositionsKeys | CARL/Assets/Scripts/Universal/SynchronizedObjectParent.cs:33-35 | the position dictionary is keyed by exactly the names seen |
| Sync.FirstRotationsKeys | CARL/Assets/Scripts/Universal/SynchronizedObjectParent.cs:33-36 | the rotation dictionary is keyed by exactly the names seen |
| Sync.FirstScalesKeys | CARL/Assets/Scripts/Universal/SynchronizedObjectParent.cs:33-37 | the scale dictionary is keyed by exactly the names seen |
| Sync.NamesOfEarlier | CARL/Assets/Scripts/Universal/SynchronizedObjectParent.cs:31-39 | a child already passed has its name among the names seen |
| Sync.FirstPositionsAt | CARL/Assets/Scripts/Universal/SynchronizedObjectParent.cs:33-35 | the first child with a name supplies that name's position |
| Sync.FirstRotationsAt | CARL/Assets/Scripts/Universal/SynchronizedObjectParent.cs:33-36 | the first child with a name supplies that name's rotation |
| Sync.FirstScalesAt | CARL/Assets/Scripts/Universal/SynchronizedObjectParent.cs:33-37 | the first child with a name supplies that name's scale |
| Sync.LocalsOf | CARL/Assets/Scripts/Universal/SynchronizedObjectParent.cs:31-39 | the children's local transforms, one per child |
| Sync.FirstByName | CARL/Assets/Scripts/Universal/SynchronizedObjectParent.cs:28-39 | the loop builds the first-seen dictionaries and key order |
| Sync.FirstByNameKeys | CARL/Assets/Scripts/Universal/SynchronizedObjectParent.cs:28-39 | the three dictionaries share one key set, the names of the hierarchy, one key per distinct name |
| Sync.FirstByNameValid | CARL/Assets/Scripts/Universal/SynchronizedObjectParent.cs:28-39 | after Start the dictionaries are consistent with the key order and every key has a scale |
| Sync.FirstByNameValues | CARL/Assets/Scripts/Universal/SynchronizedObjectParent.cs:33-38 | every name maps to the pose and scale of the first child with that name |
| Sync.WriteChildRecords | CARL/Assets/Scripts/Universal/SynchronizedObjectManager.cs:224-233 | the loop writes one (name, pose) record per key, in key order, and records each key's sent position, rotation and scale |
| Sync.BuildCombined | CARL/Assets/Scripts/Universal/SynchronizedObjectManager.cs:221-233 | the message is the id, the key count and one record per key, and the dictionaries take the sent values |
| Sync.RecordCombined | CARL/Assets/Scripts/Universal/SynchronizedObjectManager.cs:221-233 | the built message carries every key's current child pose; the parent's dictionaries then hold what was sent and no child moves |
| Sync.ReadChildRecord | CARL/Assets/Scripts/Universal/SynchronizedObjectManager.cs:251-259 | one name is read; if it resolves its child takes the pose and the dictionaries are updated, otherwise only the name is consumed |
| Sync.ReadAllRecords | CARL/Assets/Scripts/Universal/SynchronizedObjectManager.cs:249-260 | after the loop, the reader is past the records, the dictionaries reflect them and each resolved child holds its last received pose |
| Sync.ReadNextRecord | CARL/Assets/Scripts/Universal/SynchronizedObjectManager.cs:249-260 | one pass of the read loop keeps its invariant |
| Sync.ReadChildRecords | CARL/Assets/Scripts/Universal/SynchronizedObjectManager.cs:249-260 | reads exactly `count` records: the cursor ends after them, each resolved child holds the last pose received for it, and the dictionaries and key order are updated accordingly |
| Sync.ReadRecordLoop | CARL/Assets/Scripts/Universal/SynchronizedObjectManager.cs:249-260 | the loop runs `count` times (none for a non-positive count) |
| Sync.Manager.SpawnSynchronizedObject | CARL/Assets/Scripts/Universal/SynchronizedObjectManager.cs:83-109 | a client forwards (name, state, id) reliably to the server and spawns nothing; the server, for an unknown prefab, spawns nothing; otherwise it registers a fresh object under a new id with the requested owner, the prefab's pose and settings, and, unless UNTRACKED, the requested tracking state, reported to the server in debug lines while messaging is up and then sent on reliably; the id counter advances only on a spawn; the OT spawner marks the spawn finished (-1) and lists the object exactly when a spawned object enters OTTRACKED, and is untouched on every other path |
| Sync.Manager.SpawnUntracked | CARL/Assets/Scripts/Universal/SynchronizedObjectManager.cs:70-73 | the two-argument overload spawns UNTRACKED with tracking id -1: a client forwards it; the server registers a fresh object under the next id with the prefab's pose and settings, or nothing for an unknown prefab, and sends nothing; the id counter advances only on a spawn, and the OT spawner is never touched |
| Sync.Manager.SpawnSynchronizedHandler | CARL/Assets/Scripts/Universal/SynchronizedObjectManager.cs:114-126 | reads name, state and id; a client forwards them (id -1 when UNTRACKED); the server spawns nothing for an unknown prefab, and otherwise registers a fresh object under the next id owned by the sender, with the prefab's pose and settings, the received state, and the received id unless UNTRACKED, whose prefab id is kept; a tracked spawn sends the debug lines and the state message; the id counter advances only on a spawn, and the OT spawner registers the object exactly when it is spawned OTTRACKED |
| Sync.Manager.SendTrackedStateChange | CARL/Assets/Scripts/Universal/SynchronizedObjectManager.cs:135-148 | one reliable message with the object's id, state and tracking id, to all or to the receiver |
| Sync.Manager.TrackedStateChangeHandler | CARL/Assets/Scripts/Universal/SynchronizedObjectManager.cs:153-159 | reads id, state and tracking id in the order they were written and hands them to the retry step |
| Sync.Manager.ChangeTrackedStateStep | CARL/Assets/Scripts/Universal/SynchronizedObjectManager.cs:438-462 | done iff the id resolves; then the state is applied without propagation, its debug lines go to the server while messaging is up, and the server relays it to every client but the sender, and entering OTTRACKED registers the object with the OT spawner; otherwise nothing happens, the spawner included, and the step is retried |
| Sync.Manager.SendTransformSync | CARL/Assets/Scripts/Universal/SynchronizedObjectManager.cs:168-183 | one pose sync of the object's local pose, to all or to the receiver; the object's last-sent values are taken from the manager's own transform |
| Sync.Manager.SendCombinedTransformSync | CARL/Assets/Scripts/Universal/SynchronizedObjectManager.cs:219-241 | one message: id, key count, then (name, pose) per key; every key's last-sent position, rotation and scale become the child's current values |
| Sync.Manager.CombinedTransformSyncHandler | CARL/Assets/Scripts/Universal/SynchronizedObjectManager.cs:243-276 | an unregistered id only logs a warning; otherwise exactly `count` records are read, resolved children take their poses, the dictionaries follow, and the server relays the parent's combined state to every client but the sender |
| Sync.Manager.ReceiveCombined | CARL/Assets/Scripts/Universal/SynchronizedObjectManager.cs:249-270 | the registered-parent branch of the handler: records applied, then relayed by the server |
| Sync.Manager.RelayCombinedTransformSync | CARL/Assets/Scripts/Universal/SynchronizedObjectManager.cs:261-270 | one combined sync per other client, each refreshing the dictionaries to the children's current values |
| Sync.Manager.TransformSyncHandler | CARL/Assets/Scripts/Universal/SynchronizedObjectManager.cs:188-216 | an unregistered id only logs a warning; a registered one takes the pose read (keeping its scale), its last-sent values become that pose, and the server relays one pose sync to each client but the sender |
| Sync.Manager.RelayTransformSync | CARL/Assets/Scripts/Universal/SynchronizedObjectManager.cs:201-210 | one pose sync per other client |
| Sync.Manager.SendFullTransformSync | CARL/Assets/Scripts/Universal/SynchronizedObjectManager.cs:284-299 | one full sync of the object's local transform; the last-sent values are taken from the manager's own transform |
| Sync.Manager.FullTransformSyncHandler | CARL/Assets/Scripts/Universal/SynchronizedObjectManager.cs:301-324 | an unregistered id is ignored without a warning; a registered one takes the full transform read, and the server relays it to each client but the sender |
| Sync.Manager.RelayFullTransformSync | CARL/Assets/Scripts/Universal/SynchronizedObjectManager.cs:311-320 | one full sync per other client |
| Sync.Manager.RequestOwnership | CARL/Assets/Scripts/Universal/SynchronizedObjectManager.cs:342-358 | an HL or OT client sends (client id, object id) reliably to the server and changes nothing; the server makes the client the owner of a registered object and does nothing for an unknown id; no other object changes |
| Sync.Manager.RequestOwnershipHandler | CARL/Assets/Scripts/Universal/SynchronizedObjectManager.cs:331-336 | reads the client id and object id; an HL or OT client sends the request on; the server only changes the owner of a registered object; every other object, the log and the session are unchanged |
| ClientMeta.OTIds | CARL/Assets/Scripts/Server/ClientMetaDataHolder.cs:55-62 | the OT clients' ids, at most one per record |
| ClientMeta.OTIdsMembers | CARL/Assets/Scripts/Server/ClientMetaDataHolder.cs:55-62 | an id is listed iff some record says it is an OT client |
| ClientMeta.HideHeadsForIds | CARL/Assets/Scripts/Server/ClientMetaDataHolder.cs:51-64 | a newly connected client gets one HideHead message per stored OT client, in table order |
| ClientMeta.Find | CARL/Assets/Scripts/Server/ClientMetaDataHolder.cs:103 | the first record with the id, or none iff no record has it |
| ClientMeta.RemoveFound | CARL/Assets/Scripts/Server/ClientMetaDataHolder.cs:101-104 | removing an absent id leaves the table unchanged |
| ClientMeta.RemoveFoundFirst | CARL/Assets/Scripts/Server/ClientMetaDataHolder.cs:101-104 | only the first record with the id is removed; the others keep their order |
| ClientMeta.ClientMetaDataHolder.NthHoloLensGetsNthPort | CARL/Assets/Scripts/Server/ClientMetaDataHolder.cs:87-97 | over any sequence of metadata messages, the n-th HL client is told the n-th LSL port and the host name |
| ClientMeta.ClientMetaDataHolder.PortsFromCons | CARL/Assets/Scripts/Server/ClientMetaDataHolder.cs:87-97 | the next HL client takes the next port |
| ClientMeta.ClientMetaDataHolder.MetaDataHandler | CARL/Assets/Scripts/Server/ClientMetaDataHolder.cs:72-99 | exactly one (id, type, name) record is appended; an OT client causes one HideHead broadcast; an HL client is answered with the next port and the counter grows, and the handler fails when no port is left; a server record sends nothing |
| ClientMeta.ClientMetaDataHolder.ClientConnected | CARL/Assets/Scripts/Server/ClientMetaDataHolder.cs:51-64 | the new client gets one HideHead per stored OT client |
| ClientMeta.ClientMetaDataHolder.ClientDisconnected | CARL/Assets/Scripts/Server/ClientMetaDataHolder.cs:101-104 | the first record with the id is removed; the port counter is never decremented |
| SpawnGoals.TypeOf | CARL/Assets/Scripts/Server/SpawnGoalSender.cs:19 | a client with no record has the default type, SERVER; HL only when a record says so |
| SpawnGoals.HoloLensIds | CARL/Assets/Scripts/Server/SpawnGoalSender.cs:19 | the HL clients among the connected ones |
| SpawnGoals.HoloLensIdsMembers | CARL/Assets/Scripts/Server/SpawnGoalSender.cs:19 | a connected client is included iff its type is HL |
| SpawnGoals.HoloLensIdsDistinct | CARL/Assets/Scripts/Server/SpawnGoalSender.cs:19-25 | distinct connected clients give distinct goal recipients |
| SpawnGoals.GoalMessagesSnoc | CARL/Assets/Scripts/Server/SpawnGoalSender.cs:23-25 | the next HL client gets the next player id |
| SpawnGoals.SendSpawnGoals | CARL/Assets/Scripts/Server/SpawnGoalSender.cs:14-29 | exactly one SpawnGoals message per HL client, in connection order, with player ids 1, 2, 3, ... |
| Ping.NextIndexInRange | CARL/Assets/Scripts/Universal/PingReceiver.cs:51 | an index in range stays in range after a ping |
| Ping.AdvanceCompose | CARL/Assets/Scripts/Universal/PingReceiver.cs:51 | n pings then m pings advance the index like n + m pings |
| Ping.AdvanceForward | CARL/Assets/Scripts/Universal/PingReceiver.cs:51 | before the end of the ring, each ping moves the index forward by one |
| Ping.RingCycles | CARL/Assets/Scripts/Universal/PingReceiver.cs:51 | after `length` pings the index is back where it was, and every slot is reached in fewer than `length` pings |
| Ping.SendPingToAll | CARL/Assets/Scripts/Universal/PingReceiver.cs:48 | the relay is one message to all carrying the 3-float position |
| Ping.PingReceiver.PingHandler | CARL/Assets/Scripts/Universal/PingReceiver.cs:43-55 | reads one 3-float position; the server relays it to all and changes nothing else; a client moves to the next slot (wrapping to 0), marks only that slot at the position, and fails when the ring is empty |
| ClientDebug.SendToServer | CARL/Assets/Scripts/Universal/ClientDebugSender.cs:15-26 | one reliable message (severity, message) to the server when messaging is up, nothing otherwise |
| ClientDebug.DebugToServer | CARL/Assets/Scripts/Universal/ClientDebugSender.cs:15-26 | the same with severity 0 |
| ClientDebug.WarningToServer | CARL/Assets/Scripts/Universal/ClientDebugSender.cs:32-43 | the same with severity 1 |
| ClientDebug.ErrorToServer | CARL/Assets/Scripts/Universal/ClientDebugSender.cs:49-60 | the same with severity 2 |
| ClientDebug.DebugLine | CARL/Assets/Scripts/Server/ClientDebugReader.cs:42-50 | severity 0 gives an info line, 1 a warning, any other value an error |
| ClientDebug.AttributedInjective | CARL/Assets/Scripts/Server/ClientDebugReader.cs:43-49 | the logged text determines the sender and the message |
| ClientDebug.DebugLineInjective | CARL/Assets/Scripts/Server/ClientDebugReader.cs:42-50 | the log line determines sender, message and severity class |
| ClientDebug.FirstReady | CARL/Assets/Scripts/Server/ClientDebugReader.cs:25-36 | the first frame at which messaging is up, or none |
| ClientDebug.ClientDebugReader.RegisterMsgHandlers | CARL/Assets/Scripts/Server/ClientDebugReader.cs:25-36 | waits frame by frame until messaging is up, then registers the handler once and sets the flag; once set, it does nothing |
| ClientDebug.ClientDebugReader.ClientDebugHandler | CARL/Assets/Scripts/Server/ClientDebugReader.cs:38-51 | reads severity then message and logs exactly one line naming the sender |
| ClientDebug.DeliverDebug | CARL/Assets/Scripts/Universal/ClientDebugSender.cs:15-26 | what a client sends is logged by the server with the same sender, severity class and message |
| Ntp.RequestPacket | CARL/Assets/Scripts/LSL/NTPClient.cs:60-66 | 48 bytes; byte 0 has leap indicator 0, version 3, mode 3 (client); all other bytes are zero |
| Ntp.SwapIgnoresHighBits | CARL/Assets/Scripts/LSL/NTPClient.cs:139-145 | only the low 32 bits matter |
| Ntp.SwapInvolution | CARL/Assets/Scripts/LSL/NTPClient.cs:139-145 | swapping twice gives back any 32-bit value |
| Ntp.SwapOfBytes | CARL/Assets/Scripts/LSL/NTPClient.cs:139-145 | swapping reverses the four bytes |
| Ntp.SwapOfLittleEndianIsBigEndian | CARL/Assets/Scripts/LSL/NTPClient.cs:108-115 | swapping a little-endian read gives the big-endian value of the same bytes |
| Ntp.BigEndianBytes | CARL/Assets/Scripts/LSL/NTPClient.cs:108-115 | a 32-bit field is four bytes |
| Ntp.BigEndianRoundTrip | CARL/Assets/Scripts/LSL/NTPClient.cs:108-115 | a field written big-endian reads back as the same value |
| Ntp.NtpMillisBounds | CARL/Assets/Scripts/LSL/NTPClient.cs:117 | the fraction contributes 0 to 999 ms, nothing overflows 64 bits, and whole seconds are recovered by dividing by 1000 |
| Ntp.MillisArithmetic | CARL/Assets/Scripts/LSL/NTPClient.cs:117 | the same bounds over integers |
| Ntp.Received | CARL/Assets/Scripts/LSL/NTPClient.cs:83-93 | the reply lands in the 48-byte request buffer |
| Ntp.TransmitMillisOfReply | CARL/Assets/Scripts/LSL/NTPClient.cs:105-117 | a reply carrying seconds and fraction at byte 40 decodes to seconds times 1000 plus the fraction's milliseconds |
| Ntp.NtpClient.GetNtpTimeAndCalcOffset | CARL/Assets/Scripts/LSL/NTPClient.cs:56-136 | a caught exception sets the error flag and keeps the old offset; a reply clears the flag and sets the offset from its transmit timestamp; an exception not caught escapes with nothing changed |
| Udp.JoinSplit | CARL/Assets/Scripts/LSL/DataUDPStream.cs:70 | splitting on '.' loses nothing: the parts joined back give the string, and no part contains a dot |
| Udp.SplitJoin | CARL/Assets/Scripts/LSL/DataUDPStream.cs:70 | splitting parts joined with '.' gives the parts back |
| Udp.SplitCount | CARL/Assets/Scripts/LSL/DataUDPStream.cs:70-71 | there is one part more than there are dots |
| Udp.Split | CARL/Assets/Scripts/LSL/DataUDPStream.cs:70 | a split has at least one part |
| Udp.TrimStart | CARL/Assets/Scripts/LSL/DataUDPStream.cs:99 | no leading white space is left |
| Udp.TrimEnd | CARL/Assets/Scripts/LSL/DataUDPStream.cs:99 | no trailing white space is left |
| Udp.ParseIntegerOfDigits | CARL/Assets/Scripts/LSL/DataUDPStream.cs:99 | a digit string parses to its value |
| Udp.ParseIntegerOfDec | CARL/Assets/Scripts/LSL/DataUDPStream.cs:99 | the decimal text of a number parses back to it |
| Udp.IsValidIPAddressShape | CARL/Assets/Scripts/LSL/DataUDPStream.cs:63-79 | a null, empty or white-space address is invalid; a valid one has exactly three dots |
| Udp.DecHasNoDot | CARL/Assets/Scripts/LSL/DataUDPStream.cs:70 | a decimal number has no dot |
| Udp.JoinedBytesValid | CARL/Assets/Scripts/LSL/DataUDPStream.cs:63-79 | four byte texts joined with dots form a valid address |
| Udp.ByteTextParses | CARL/Assets/Scripts/LSL/DataUDPStream.cs:78 | the decimal text of 0..255 parses as a byte |
| Udp.BytePart | CARL/Assets/Scripts/LSL/DataUDPStream.cs:63-79 | the decimal text of a value 0..255 has no dot, starts with a non-blank and passes byte.TryParse |
| Udp.DottedQuadValid | CARL/Assets/Scripts/LSL/DataUDPStream.cs:63-79 | every a.b.c.d with parts 0..255 is valid |
| Udp.IsValidPortSpec | CARL/Assets/Scripts/LSL/DataUDPStream.cs:85-105 | valid iff the port parses to a number in 0..65535; unparsable text gives -1 and so false; a parse outside 32 bits escapes as an overflow; every number up to 65535 is valid |
| Udp.DataUdpStream.constructor | CARL/Assets/Scripts/LSL/DataUDPStream.cs:32-51 | a new stream targets 192.168.178.108, port "8081", with no client, no endpoint, not connected |
| Udp.DataUdpStream.Disconnect | CARL/Assets/Scripts/LSL/DataUDPStream.cs:111-120 | closes the client only when connected and leaves connected false, so a second call does nothing |
| Udp.DataUdpStream.CreateSendAction | CARL/Assets/Scripts/LSL/DataUDPStream.cs:125-180 | a new client replaces the old one, which is closed if connected; a malformed address or an overflowing port ends with an exception; the endpoint is kept iff address and port are unchanged, otherwise replaced when the port is in range, and the client is connected to it; the new client is open and has no endpoint unless connected; the old client keeps its endpoint and its sent datagrams, and is left as it was when not connected |
| Udp.DataUdpStream.SendAction | CARL/Assets/Scripts/LSL/DataUDPStream.cs:162-178 | a non-empty byte array is sent on an open client that has an endpoint; a null or empty array, a closed client or one never connected sends nothing |
| Roles.ExactlyOneRole | CARL/Assets/Scripts/Universal/MetaDataHolder.cs:16-18 | a device type is a declared one iff exactly one of server, HL client, OT client holds |
| Roles.StartFor | CARL/Assets/Scripts/Universal/MetaDataHolder.cs:46-55 | the server starts a server; HL and OT clients start a client |
| Roles.MetaDataHolder.StartAction | CARL/Assets/Scripts/Universal/MetaDataHolder.cs:39-45 | nothing starts unless the network is to start immediately |
| Roles.InstanceSlot.Awake | CARL/Assets/Scripts/Universal/MetaDataHolder.cs:34-37 | the holder stores itself as the instance |
| Roles.InstanceSlot.Get | CARL/Assets/Scripts/Universal/MetaDataHolder.cs:21-32 | a null instance stays null; a non-null one is re-resolved to the object found |
| CamelCase.LowerRunSpec | CARL/Assets/Scripts/Editor/MapHandsEditor.cs:45 | `[a-z]*` takes the longest run of lower-case letters |
| CamelCase.DigitRunSpec | CARL/Assets/Scripts/Editor/MapHandsEditor.cs:45 | `\d+` takes the longest run of digits |
| CamelCase.MatchAt | CARL/Assets/Scripts/Editor/MapHandsEditor.cs:45 | a token starts at i iff the character there is a letter or digit |
| CamelCase.MatchesUnfold | CARL/Assets/Scripts/Editor/MapHandsEditor.cs:46-50 | the scan skips a non-word character and otherwise takes a token and continues after it |
| CamelCase.MatchAtIsMatch | CARL/Assets/Scripts/Editor/MapHandsEditor.cs:45 | every token taken matches `[A-Z][a-z]*`, `[a-z]+` or `\d+` |
| CamelCase.MatchesAreMatches | CARL/Assets/Scripts/Editor/MapHandsEditor.cs:45-50 | every token found is non-empty and matches one of the three patterns at its position |
| CamelCase.MatchesOrdered | CARL/Assets/Scripts/Editor/MapHandsEditor.cs:46-50 | tokens do not overlap and come in source order |
| CamelCase.NoUpperInsideMatch | CARL/Assets/Scripts/Editor/MapHandsEditor.cs:45 | no upper-case letter lies inside a token |
| CamelCase.UpperStartsMatch | CARL/Assets/Scripts/Editor/MapHandsEditor.cs:45 | every upper-case letter starts a token |
| CamelCase.WordChars | CARL/Assets/Scripts/Editor/MapHandsEditor.cs:45 | the letters and digits of a string |
| CamelCase.WordCharsAppend | CARL/Assets/Scripts/Editor/MapHandsEditor.cs:45 | the letters and digits of a concatenation are those of each part |
| CamelCase.WordCharsOfWord | CARL/Assets/Scripts/Editor/MapHandsEditor.cs:45 | a string of letters and digits keeps all its characters |
| CamelCase.MatchIsWord | CARL/Assets/Scripts/Editor/MapHandsEditor.cs:45 | a token consists of letters and digits only |
| CamelCase.SkipsNonWord | CARL/Assets/Scripts/Editor/MapHandsEditor.cs:45 | a character that is not a letter or digit contributes nothing |
| CamelCase.KeepsWord | CARL/Assets/Scripts/Editor/MapHandsEditor.cs:46-50 | a token followed by the tokens of the rest covers the rest's letters and digits |
| CamelCase.MatchesCoverWordChars | CARL/Assets/Scripts/Editor/MapHandsEditor.cs:45-50 | the tokens from i on, concatenated, are exactly the letters and digits from i on |
| CamelCase.SplitCamelCaseCoversWordChars | CARL/Assets/Scripts/Editor/MapHandsEditor.cs:43-51 | the tokens concatenated are the source with every non-alphanumeric character removed |
| CamelCase.JointWords | CARL/Assets/Scripts/Editor/MapHandsEditor.cs:25-29 | a joint name gives a pair iff it splits into at least two tokens, and then the pair is the first two |
| CamelCase.JointSearches | CARL/Assets/Scripts/Editor/MapHandsEditor.cs:24-37 | at most one pair per joint, each searched for by two words |
| CamelCase.JointSearchesMembers | CARL/Assets/Scripts/Editor/MapHandsEditor.cs:24-37 | the loop pairs a joint iff its name splits into at least two tokens, and searches for the first two |
| CamelCase.AutofillJoints | CARL/Assets/Scripts/Editor/MapHandsEditor.cs:22-38 | the wrist on the hand's first child comes first, then at most one pair per joint |
| CamelCase.AutofillJointsMembers | CARL/Assets/Scripts/Editor/MapHandsEditor.cs:22-38 | a pair is in the result iff it is the wrist on the first child, or a joint of at least two tokens searched for by its first two |
| GoalEditor.StorePositionChanges | CARL/Assets/Scripts/Editor/GoalSpawnerEditor.cs:34-46 | each spawned goal takes its instance's local position and rotation; unspawned goals and every other field are untouched |
| GoalEditor.ResizedSpec | CARL/Assets/Scripts/Editor/GoalSpawnerEditor.cs:53-60 | the resized list has one flag per goal; surviving flags keep their values and added flags are false |
| GoalEditor.GoalSpawnerEditor.PrepareFoldouts | CARL/Assets/Scripts/Editor/GoalSpawnerEditor.cs:49-60 | a null list becomes empty, then the two loops resize it to the goal count |
| GoalEditor.GoalSpawnerEditor.FoldoutCaptions | CARL/Assets/Scripts/Editor/GoalSpawnerEditor.cs:64-69 | one caption per foldout, the i-th for goal i |
| GoalEditor.CaptionNamesElement | CARL/Assets/Scripts/Editor/GoalSpawnerEditor.cs:67-68 | every caption ends with its element index, which can be read back from it |
| GoalEditor.ElementIndexOfGuiName | CARL/Assets/Scripts/Editor/GoalSpawnerEditor.cs:67-68 | "name; Player id" or "Empty Goal", then " (Element" and the index: the index reads back |
| GoalEditor.TrailingDigits | CARL/Assets/Scripts/Editor/GoalSpawnerEditor.cs:67-68 | the run of digits at the end of a caption |
| GoalEditor.TrailingDigitsAfter | CARL/Assets/Scripts/Editor/GoalSpawnerEditor.cs:67-68 | digits after a non-digit are exactly the trailing digits |
| XdfStreams.TryFindingStreamByInfo | Bridge/lsl_bridge_experiments/print_eeg_streams_and_samples.py:65-82 | the first stream, in list order, whose info field equals the value or is a list containing it; none iff no stream matches; streams without info or without the field never match |
| XdfStreams.GetInfo | Bridge/lsl_bridge_experiments/print_eeg_streams_and_samples.py:40 | defined iff the field is present and holds a non-empty string or list (a missing field defaults to the empty string); the value is the string's first character or the list's first item |
| XdfStreams.WithInfo | Bridge/lsl_bridge_experiments/print_eeg_streams_and_samples.py:37-60 | the indices of the streams with info |
| XdfStreams.ListingRows | Bridge/lsl_bridge_experiments/print_eeg_streams_and_samples.py:37-60 | when no lookup fails, one row per stream with info, in stream order: its index, get_info of name, type, channel_count and channel_format, its sample count, duration and time-stamp range |
| XdfStreams.ListingSkipped | Bridge/lsl_bridge_experiments/print_eeg_streams_and_samples.py:59-60 | a stream is skipped iff it has no info |
| XdfStreams.SkippedBelow | Bridge/lsl_bridge_experiments/print_eeg_streams_and_samples.py:59-60 | skipped indices are indices of streams seen |
| XdfStreams.RowsFit | Bridge/lsl_bridge_experiments/print_eeg_streams_and_samples.py:51-58 | every row has a cell per header column |
| XdfStreams.ListStreams | Bridge/lsl_bridge_experiments/print_eeg_streams_and_samples.py:32-62 | the loop builds the listing of all streams |
| XdfStreams.FailedStays | Bridge/lsl_bridge_experiments/print_eeg_streams_and_samples.py:37-60 | once a lookup fails, nothing after it is listed |
| XdfStreams.ColumnWidths | Bridge/lsl_bridge_experiments/print_eeg_streams_and_samples.py:23-26 | one width per column |
| XdfStreams.MaxCellSpec | Bridge/lsl_bridge_experiments/print_eeg_streams_and_samples.py:23-26 | the maximum cell length of a column is at least every cell's and is some cell's |
| XdfStreams.ColumnWidthsTight | Bridge/lsl_bridge_experiments/print_eeg_streams_and_samples.py:23-26 | a column's width is its longest cell plus 3: every cell fits with 3 to spare and one fits exactly |
| XdfStreams.PadLeft | Bridge/lsl_bridge_experiments/print_eeg_streams_and_samples.py:27-29 | a cell is right-aligned: spaces, then the cell, to the full width |
| XdfStreams.FormatRowWidth | Bridge/lsl_bridge_experiments/print_eeg_streams_and_samples.py:27-29 | a formatted row is as long as the widths add up to |
| XdfStreams.TableLinesAligned | Bridge/lsl_bridge_experiments/print_eeg_streams_and_samples.py:21-29 | every printed line has the same length |
| XdfStreams.HeaderAndRows | Bridge/lsl_bridge_experiments/print_eeg_streams_and_samples.py:62 | the header with rows of its width forms a table |
| XdfStreams.ListingTableRectangular | Bridge/lsl_bridge_experiments/print_eeg_streams_and_samples.py:36-62 | the printed table is the header and one row per listed stream, all of equal width |

## Left out

- Netcode delivery: the reliability, ordering and arrival of messages are not modelled; sending
  appends to an outbox and a handler is called with a buffer.
- Buffer capacity: the 64000-byte writer is unbounded here. The codec ignores the results of
  TryBeginWrite and TryBeginRead, so enough values at the cursor is a precondition of each read
  rather than a checked error.
- Float geometry: Vector3.Distance, Quaternion.Angle and the float product of scales are
  parameters; floats are opaque bit patterns.
- Ntp.NtpClient.GetNtpTimeAndCalcOffset: the socket exchange and DNS lookup are a parameter
  (a reply, a caught exception, or one that escapes); the offset in seconds is a real, and the
  double rounding of the tick arithmetic is not modelled.
- Udp.DataUdpStream.CreateSendAction: IPAddress.Parse is a parameter (the parsed address or a
  format error); the ArgumentNullException for a null port string and socket errors are not
  modelled.
- Udp.IsValidPortSpec: Int32.Parse accepts ASCII digits with an optional sign and surrounding
  white space; culture-specific number styles are not modelled.
- CamelCase: `\d` is taken as the ASCII digits and letters as ASCII letters; Unicode classes
  are not modelled.
- MetaDataHolder, ClientMetaDataHolder and PingReceiver register their message handlers in
  per-frame coroutines; only ClientDebugReader's coroutine is modelled (as a frame loop), the
  others are registration side effects with nothing to verify.
- Sync.Manager.ChangeTrackedStateStep: the coroutine ChangeTrackedStateCR waits a frame between
  attempts; the model is the single attempt, returning whether it is done. Its first attempt
  runs in the handler.
- Sync.SyncObject.ParentStart: the base.Start() call it begins with is not modelled. That is
  SynchronizedObject.Start, which on an HL or OT client with reparentOnSpawn moves the object
  under the scene's OriginSeeker. The model has no scene search (FindObjectOfType) and no
  SetParent, so the plain object's Start is not modelled either.
- Sync.Manager.CombinedTransformSyncHandler: a combined sync is assumed to name a
  SynchronizedObjectParent; its requires asks that a registered id's object be a consistent
  composite. For a plain SynchronizedObject, GetComponent returns null. The source then throws
  a NullReferenceException at the first record whose name resolves, or at the server's relay.
  That exception path is not modelled.
- Sync.Manager.TransformSyncHandler: the GetComponentInChildren fallback is not modelled; the
  registry maps an id straight to its synchronised object.
- FindRecursive is modelled by a fixed map from child name to child transform, and
  GetRecursiveChildren by the hierarchy sequence; their search order is not modelled.
- Debug.Log diagnostics are modelled only where they carry content: the unregistered-id
  warnings, the "needs update" line and the client debug lines.
- Ping.PingReceiver.PingHandler: Vector3.ToString is the `show` parameter; particle playback is
  a flag on the marker.
- PingSender's Bridge send on clients, MoveRandom and SpawnHardcodedStudyList (random offsets
  and timed study scripts) are not part of this model.
- GoalEditor: GUI drawing, SetDirty and MarkSceneDirty are not modelled; the caption's integer
  formatting is plain decimal.
- CamelCase.AutofillJoints: FindRecursive and GetChild on the hand rig are not modelled; the
  result names where each joint is looked for (the first child, or a name containing two tokens).
- XdfStreams: loading the XDF file and formatting floats (and the NaN duration) are not
  modelled; durations and timestamps are already-formatted text; info values that are neither a
  string nor a list are an opaque case; the skip message's stream text is not modelled.
- XdfStreams: the two lines printed before the table ("Stream info for" the path, and the
  stream count) are not modelled.
- IMessageHandler is an interface with nothing to verify; the other files of the repository are
  not part of this model.
