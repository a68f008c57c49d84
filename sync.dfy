/**
 * Synchronized objects and their coordinator: the dirty-delta detector of each object,
 * the composite variant that batches a whole hierarchy, transitive ownership, tracking
 * state, and the manager's spawn, sync, relay and ownership handlers.
 */
module Sync {
  import opened Wrappers
  import opened Wire
  import opened Scene
  import opened Codec
  import opened Runtime
  import opened Roles
  import opened SyncSpec
  import Text
  import ClientDebug

  /** MRTK's ObjectManipulator: only its enabled flag matters here. */
  class Manipulator {
    var enabled: bool

    constructor (enabled: bool)
      ensures this.enabled == enabled
    {
      this.enabled := enabled;
    }
  }

  /** The fields of the tracked-object spawner singleton that a tracking change writes. */
  class Spawner {
    var spawnOngoing: int
    var spawnedTrackedObjects: seq<SyncObject>

    constructor ()
      ensures spawnOngoing == 0 && spawnedTrackedObjects == []
    {
      spawnOngoing := 0;
      spawnedTrackedObjects := [];
    }
  }

  /** The inspector settings of a SynchronizedObject component. */
  datatype Settings = Settings(syncScale: bool, precision: Precision, trackingID: int)

  /** The outcome of a composite's per-child test: unmoved, moved, or a lookup of a missing last-sent scale. */
  datatype ChildCheck = Within | Beyond | ScaleMissing

  /** What AddComponent<SynchronizedObject> gives a prefab that has none. */
  const DefaultSettings := Settings(false, DefaultPrecision, 0)

  /** An entry of objectPrefabs: its name, its SynchronizedObject if it has one, its pose. */
  datatype Prefab = Prefab(name: string, settings: Option<Settings>, manipulable: bool, pose: FullPose)

  /** List.Find over the prefabs: the first one with the given name. */
  function FindPrefab(ps: seq<Prefab>, name: string): (r: Option<Prefab>)
    ensures r.None? <==> forall i :: 0 <= i < |ps| ==> ps[i].name != name
    ensures r.Some? ==>
      exists i :: 0 <= i < |ps| && ps[i] == r.value && ps[i].name == name && (forall j :: 0 <= j < i ==> ps[j].name != name)
  {
    if ps == [] then None
    else if ps[0].name == name then Some(ps[0])
    else
      var r := FindPrefab(ps[1..], name);
      if r.Some? then
        var i :| 0 <= i < |ps[1..]| && ps[1..][i] == r.value && ps[1..][i].name == name &&
          (forall j :: 0 <= j < i ==> ps[1..][j].name != name);
        assert ps[i + 1] == r.value && forall j :: 0 <= j < i + 1 ==> ps[j].name != name;
        r
      else r
  }

  /** The mutable fields of a synchronized object, for saying what an operation leaves alone. */
  datatype ObjectState = ObjectState(
    owner: ClientId,
    lastPosition: Vec3, lastRotation: Quat, lastScale: Vec3, sinceSync: real,
    tracking: TrackingState, trackingID: int,
    positions: map<string, Vec3>, rotations: map<string, Quat>, scales: map<string, Vec3>,
    keys: seq<string>, sinceCheck: real)

  const ZeroVec3 := Vec3(0, 0, 0)
  const ZeroQuat := Quat(0, 0, 0, 0)

  /**
   * A SynchronizedObject, or (isComposite) a SynchronizedObjectParent, whose per-name
   * dictionaries hide the single last-sent fields.
   */
  class SyncObject {
    const networkObjectId: ObjectId
    const transform: Transform
    /** The SynchronizedObject on transform.parent, when the parent exists and has one. */
    const parentObject: SyncObject?
    ghost const depth: nat
    /** GetComponent<ObjectManipulator>(). */
    const manipulator: Manipulator?
    const syncScale: bool
    const precision: Precision
    /** The SynchronizedObject of each immediate child transform that has one, in child order. */
    const children: seq<SyncObject>
    ghost const height: nat

    /** The owning client (NetworkObject.OwnerClientId). */
    var ownerClientId: ClientId
    var lastSentPosition: Vec3
    var lastSentRotation: Quat
    var lastSentScale: Vec3
    var timeSinceLastSync: real
    var trackingState: TrackingState
    var trackingID: int

    const isComposite: bool
    /** GetRecursiveChildren(), in its order. */
    const hierarchy: seq<Transform>
    /** FindRecursive, for the names it finds. */
    const childLookup: map<string, Transform>
    /** GetComponentsInChildren<ObjectManipulator>(). */
    const manipulators: seq<Manipulator>
    var lastSentPositionByName: map<string, Vec3>
    var lastSentRotationByName: map<string, Quat>
    var lastSentScaleByName: map<string, Vec3>
    /** The dictionaries' enumeration order, which is insertion order. */
    var keyOrder: seq<string>
    var timeSinceLastCheck: real

    /** A single synchronized object with default field values. */
    constructor (networkObjectId: ObjectId, transform: Transform, parentObject: SyncObject?, ghost depth: nat,
                 manipulator: Manipulator?, settings: Settings, owner: ClientId,
                 children: seq<SyncObject>, ghost height: nat)
      requires parentObject != null ==> parentObject.ChainValid() && parentObject.depth < depth
      requires forall i :: 0 <= i < |children| ==> children[i].height < height && children[i].TreeValid()
      ensures TreeValid() && !isComposite && this.children == children
      ensures this.networkObjectId == networkObjectId && this.transform == transform
      ensures this.parentObject == parentObject && this.manipulator == manipulator
      ensures syncScale == settings.syncScale && precision == settings.precision
      ensures State() == ObjectState(owner, ZeroVec3, ZeroQuat, ZeroVec3, 0.0, UNTRACKED, settings.trackingID,
        map[], map[], map[], [], 0.0)
    {
      this.networkObjectId := networkObjectId;
      this.transform := transform;
      this.parentObject := parentObject;
      this.depth := depth;
      this.children, this.height := children, height;
      this.manipulator := manipulator;
      syncScale := settings.syncScale;
      precision := settings.precision;
      ownerClientId := owner;
      lastSentPosition, lastSentRotation, lastSentScale := ZeroVec3, ZeroQuat, ZeroVec3;
      timeSinceLastSync := 0.0;
      trackingState, trackingID := UNTRACKED, settings.trackingID;
      isComposite := false;
      hierarchy, childLookup, manipulators := [], map[], [];
      lastSentPositionByName, lastSentRotationByName, lastSentScaleByName := map[], map[], map[];
      keyOrder := [];
      timeSinceLastCheck := 0.0;
    }

    /** A SynchronizedObjectParent before its Start. */
    constructor Composite(networkObjectId: ObjectId, transform: Transform, parentObject: SyncObject?, ghost depth: nat,
                          settings: Settings, owner: ClientId,
                          hierarchy: seq<Transform>, childLookup: map<string, Transform>, manipulators: seq<Manipulator>,
                          children: seq<SyncObject>, ghost height: nat)
      requires parentObject != null ==> parentObject.ChainValid() && parentObject.depth < depth
      requires forall i :: 0 <= i < |children| ==> children[i].height < height && children[i].TreeValid()
      ensures TreeValid() && isComposite && manipulator == null && this.children == children
      ensures this.networkObjectId == networkObjectId && this.transform == transform
      ensures this.parentObject == parentObject
      ensures syncScale == settings.syncScale && precision == settings.precision
      ensures this.hierarchy == hierarchy && this.childLookup == childLookup && this.manipulators == manipulators
      ensures State() == ObjectState(owner, ZeroVec3, ZeroQuat, ZeroVec3, 0.0, UNTRACKED, settings.trackingID,
        map[], map[], map[], [], 0.0)
    {
      this.networkObjectId := networkObjectId;
      this.transform := transform;
      this.parentObject := parentObject;
      this.depth := depth;
      this.children, this.height := children, height;
      manipulator := null;
      syncScale := settings.syncScale;
      precision := settings.precision;
      ownerClientId := owner;
      lastSentPosition, lastSentRotation, lastSentScale := ZeroVec3, ZeroQuat, ZeroVec3;
      timeSinceLastSync := 0.0;
      trackingState, trackingID := UNTRACKED, settings.trackingID;
      isComposite := true;
      this.hierarchy, this.childLookup, this.manipulators := hierarchy, childLookup, manipulators;
      lastSentPositionByName, lastSentRotationByName, lastSentScaleByName := map[], map[], map[];
      keyOrder := [];
      timeSinceLastCheck := 0.0;
    }

    function State(): ObjectState
      reads this
    {
      ObjectState(ownerClientId, lastSentPosition, lastSentRotation, lastSentScale, timeSinceLastSync,
        trackingState, trackingID, lastSentPositionByName, lastSentRotationByName, lastSentScaleByName,
        keyOrder, timeSinceLastCheck)
    }

    // ------------------------------------------------------------ ownership

    /** The chain of SynchronizedObjects up the transform hierarchy is finite. */
    ghost predicate ChainValid()
      decreases depth
    {
      parentObject != null ==> parentObject.depth < depth && parentObject.ChainValid()
    }

    /** This object and the SynchronizedObject of each ancestor up to the first without one. */
    ghost function Lineage(): set<SyncObject>
      requires ChainValid()
      ensures this in Lineage()
      ensures parentObject != null ==> parentObject.Lineage() <= Lineage()
      decreases depth
    {
      {this} + (if parentObject == null then {} else parentObject.Lineage())
    }

    /** IsOwned: owned here, or else whatever the parent's SynchronizedObject answers. */
    function IsOwned(local: ClientId): bool
      requires ChainValid()
      reads Lineage()
      decreases depth
    {
      ownerClientId == local || (parentObject != null && parentObject.IsOwned(local))
    }

    /** Ownership is transitive: owned iff some object in the ancestry is owned by this client. */
    lemma {:induction false} OwnedIffAncestorOwned(local: ClientId)
      requires ChainValid()
      ensures IsOwned(local) <==> exists a :: a in Lineage() && a.ownerClientId == local
      decreases depth
    {
      if parentObject != null {
        parentObject.OwnedIffAncestorOwned(local);
        assert Lineage() == {this} + parentObject.Lineage();
      }
    }

    /** The SynchronizedObjects below this one form a finite tree of objects with finite parent chains. */
    ghost predicate TreeValid()
      decreases height
    {
      ChainValid() && forall i :: 0 <= i < |children| ==> children[i].height < height && children[i].TreeValid()
    }

    /** Each child's SynchronizedObject names this one as its parent's, all the way down. */
    ghost predicate Linked()
      requires TreeValid()
      decreases height
    {
      forall i :: 0 <= i < |children| ==> children[i].parentObject == this && children[i].Linked()
    }

    /** `u` holds every object whose owner GetOwnership consults from here down. */
    ghost predicate Closed(u: set<SyncObject>)
      requires TreeValid()
      decreases height
    {
      Lineage() <= u && forall i :: 0 <= i < |children| ==> children[i] in u && children[i].Closed(u)
    }

    /**
     * The ownership requests a client's GetOwnership sends, in call order: one for each
     * object it visits that the client does not already own.
     */
    ghost function Requests(local: ClientId, recursive: bool, u: set<SyncObject>): seq<Message>
      requires TreeValid() && Closed(u)
      reads u
      decreases height, 1, 0
    {
      (if IsOwned(local) then [] else [OwnershipRequest(local, networkObjectId)]) +
      (if recursive then ChildRequests(local, u, |children|) else [])
    }

    /** The requests of the recursive calls on the first `n` children. */
    ghost function ChildRequests(local: ClientId, u: set<SyncObject>, n: nat): seq<Message>
      requires TreeValid() && Closed(u) && n <= |children|
      reads u
      decreases height, 0, n
    {
      if n == 0 then [] else ChildRequests(local, u, n - 1) + children[n - 1].Requests(local, true, u)
    }

    /** Once a client owns an object, a recursive GetOwnership on it requests nothing at all. */
    lemma {:induction false} OwnedTreeSilent(local: ClientId, u: set<SyncObject>)
      requires TreeValid() && Closed(u) && Linked() && IsOwned(local)
      ensures Requests(local, true, u) == []
      decreases height, 1, 0
    {
      OwnedChildrenSilent(local, u, |children|);
    }

    lemma {:induction false} OwnedChildrenSilent(local: ClientId, u: set<SyncObject>, n: nat)
      requires TreeValid() && Closed(u) && Linked() && IsOwned(local) && n <= |children|
      ensures ChildRequests(local, u, n) == []
      decreases height, 0, n
    {
      if n > 0 {
        OwnedChildrenSilent(local, u, n - 1);
        OwnedChildSilent(local, u, n - 1);
      }
    }

    lemma {:induction false} OwnedChildSilent(local: ClientId, u: set<SyncObject>, i: nat)
      requires TreeValid() && Closed(u) && Linked() && IsOwned(local) && i < |children|
      ensures children[i].Requests(local, true, u) == []
      decreases height, 0, 0
    {
      var c := children[i];
      assert c.TreeValid() && c.Closed(u) && c.Linked() && c.parentObject == this;
      c.OwnedTreeSilent(local, u);
    }

    /**
     * GetOwnership: asks for this object unless it is already owned here, then (recursive)
     * does the same for every child's SynchronizedObject. A client only sends requests; on
     * the server each request reassigns an owner at once.
     */
    method GetOwnership(mgr: Manager, recursive: bool, ghost u: set<SyncObject>)
      requires TreeValid() && Closed(u)
      modifies mgr.net, if IsHLClient(mgr.deviceType) || IsOTClient(mgr.deviceType) then {} else mgr.Objects()
      ensures IsHLClient(mgr.deviceType) || IsOTClient(mgr.deviceType) ==>
        mgr.net.outbox == old(mgr.net.outbox) + old(Requests(mgr.net.localClientId, recursive, u))
      ensures !(IsHLClient(mgr.deviceType) || IsOTClient(mgr.deviceType)) ==> mgr.net.outbox == old(mgr.net.outbox)
      ensures mgr.net.log == old(mgr.net.log) && mgr.net.Session() == old(mgr.net.Session())
      ensures !(IsHLClient(mgr.deviceType) || IsOTClient(mgr.deviceType)) ==>
        forall o :: o in mgr.Objects() ==>
          o.State() == old(o.State()) || o.State() == old(o.State()).(owner := mgr.net.localClientId)
      ensures !(IsHLClient(mgr.deviceType) || IsOTClient(mgr.deviceType)) &&
              !old(IsOwned(mgr.net.localClientId)) && networkObjectId in mgr.registry ==>
        mgr.registry[networkObjectId].State() ==
          old(mgr.registry[networkObjectId].State()).(owner := mgr.net.localClientId)
      ensures var granted := if !old(IsOwned(mgr.net.localClientId)) && networkObjectId in mgr.registry
                             then {mgr.registry[networkObjectId]} else {};
        !(IsHLClient(mgr.deviceType) || IsOTClient(mgr.deviceType)) &&
        (!recursive || (Linked() && (old(IsOwned(mgr.net.localClientId)) ||
                                     (networkObjectId in mgr.registry && mgr.registry[networkObjectId] == this)))) ==>
        unchanged(mgr.Objects() - granted)
      decreases height, 1
    {
      var local := mgr.net.localClientId;
      ghost var client := IsHLClient(mgr.deviceType) || IsOTClient(mgr.deviceType);
      ghost var mine: seq<Message> := if IsOwned(local) then [] else [OwnershipRequest(local, networkObjectId)];
      ghost var rest := if recursive then ChildRequests(local, u, |children|) else [];
      if !IsOwned(local) {
        mgr.RequestOwnership(local, networkObjectId);
      }
      assert client ==> mgr.net.outbox == old(mgr.net.outbox) + mine && unchanged(u);
      if recursive {
        ChildrenGetOwnership(mgr, u);
      }
      AppendSplit(old(mgr.net.outbox), mine, rest, mine + rest);
    }

    /** The recursive half of GetOwnership: GetOwnership(true) on each child's SynchronizedObject in turn. */
    method ChildrenGetOwnership(mgr: Manager, ghost u: set<SyncObject>)
      requires TreeValid() && Closed(u)
      modifies mgr.net, if IsHLClient(mgr.deviceType) || IsOTClient(mgr.deviceType) then {} else mgr.Objects()
      ensures IsHLClient(mgr.deviceType) || IsOTClient(mgr.deviceType) ==>
        mgr.net.outbox == old(mgr.net.outbox) + old(ChildRequests(mgr.net.localClientId, u, |children|))
      ensures !(IsHLClient(mgr.deviceType) || IsOTClient(mgr.deviceType)) ==> mgr.net.outbox == old(mgr.net.outbox)
      ensures mgr.net.log == old(mgr.net.log) && mgr.net.Session() == old(mgr.net.Session())
      ensures !(IsHLClient(mgr.deviceType) || IsOTClient(mgr.deviceType)) ==>
        forall o :: o in mgr.Objects() ==>
          o.State() == old(o.State()) || o.State() == old(o.State()).(owner := mgr.net.localClientId)
      ensures !(IsHLClient(mgr.deviceType) || IsOTClient(mgr.deviceType)) &&
              old(IsOwned(mgr.net.localClientId)) && Linked() ==>
        unchanged(mgr.Objects())
      decreases height, 0
    {
      var local := mgr.net.localClientId;
      ghost var client := IsHLClient(mgr.deviceType) || IsOTClient(mgr.deviceType);
      for i := 0 to |children|
        invariant client ==> unchanged(u) && mgr.net.outbox == old(mgr.net.outbox) + old(ChildRequests(local, u, i))
        invariant !client ==> mgr.net.outbox == old(mgr.net.outbox)
        invariant mgr.net.log == old(mgr.net.log) && mgr.net.Session() == old(mgr.net.Session())
        invariant !client ==>
          forall o :: o in mgr.Objects() ==> o.State() == old(o.State()) || o.State() == old(o.State()).(owner := local)
        invariant !client && old(IsOwned(local)) && Linked() ==> unchanged(mgr.Objects())
      {
        ghost var mine := old(children[i].Requests(local, true, u));
        AppendSplit(old(mgr.net.outbox), old(ChildRequests(local, u, i)), mine, old(ChildRequests(local, u, i + 1)));
        children[i].GetOwnership(mgr, true, u);
      }
    }

    // ------------------------------------------------------------ delta detection

    /** Distance, angle and scale distance between the last sent values and the transform now. */
    function Measure(geo: Geometry): Deltas
      reads this, transform
    {
      Deltas(geo.distance(lastSentPosition, transform.localPosition),
        geo.angle(lastSentRotation, transform.localRotation),
        geo.distance(lastSentScale, transform.localScale))
    }

    /** Whether CheckForTransformUpdate sends, given the frame time `dt`. */
    function SendsNow(mgr: Manager, dt: real): bool
      requires mgr.tickRate > 0
      reads this, transform
    {
      NeedsUpdate(timeSinceLastSync + dt, SyncInterval(mgr.tickRate), Measure(mgr.geometry), precision, syncScale)
    }

    /**
     * CheckForTransformUpdate: the timer grows by `dt`; when the send test passes, one full
     * sync (with scale sync) or one pose sync goes out, and the timer restarts at zero.
     */
    method CheckForTransformUpdate(mgr: Manager, dt: real)
      requires mgr.tickRate > 0 && !isComposite
      modifies this, mgr.net
      ensures var sends := old(SendsNow(mgr, dt));
        var dest := SyncDest(mgr.deviceType);
        var m := mgr.transform.LocalFull();
        && (!sends ==> State() == old(State()).(sinceSync := old(timeSinceLastSync) + dt) &&
                       mgr.net.outbox == old(mgr.net.outbox))
        && (sends && syncScale ==>
              State() == old(State()).(lastPosition := m.position, lastRotation := m.rotation,
                                       lastScale := m.scale, sinceSync := 0.0) &&
              mgr.net.outbox == old(mgr.net.outbox) +
                [Message(TransformSyncScaleKey, dest, FullSyncPayload(networkObjectId, transform.LocalFull()), DefaultDelivery)])
        && (sends && !syncScale ==>
              State() == old(State()).(lastPosition := m.position, lastRotation := m.rotation, sinceSync := 0.0) &&
              mgr.net.outbox == old(mgr.net.outbox) +
                [Message(TransformSyncKey, dest, TransformSyncPayload(networkObjectId, transform.LocalPose()), DefaultDelivery)])
      ensures mgr.net.log == old(mgr.net.log) && mgr.net.Session() == old(mgr.net.Session())
    {
      ghost var sends := SendsNow(mgr, dt);
      var needsUpdate := false;
      timeSinceLastSync := timeSinceLastSync + dt;
      var geo := mgr.geometry;
      if (timeSinceLastSync > SyncInterval(mgr.tickRate) as real &&
          geo.distance(lastSentPosition, transform.localPosition) > precision.position) ||
         geo.angle(lastSentRotation, transform.localRotation) > precision.rotation ||
         (syncScale && geo.distance(lastSentScale, transform.localScale) > precision.scale)
      {
        needsUpdate := true;
      }
      assert needsUpdate == sends;
      if needsUpdate {
        if syncScale {
          if IsServer(mgr.deviceType) {
            mgr.SendFullTransformSync(this, 10000, true);
          } else {
            mgr.SendFullTransformSync(this, ServerClientId);
          }
        } else {
          if IsServer(mgr.deviceType) {
            mgr.SendTransformSync(this, 10000, true);
          } else {
            mgr.SendTransformSync(this, ServerClientId);
          }
        }
        timeSinceLastSync := 0.0;
      }
    }

    /** The manipulator gating that follows every Update: enabled iff not tracked by Optitrack. */
    method GateManipulator(om: Manipulator)
      modifies om
      ensures om.enabled == (trackingState != OTTRACKED)
    {
      if (trackingState == OTTRACKED) == om.enabled {
        om.enabled := !om.enabled;
      }
    }

    /**
     * Update: the delta check runs only when this client owns the object (possibly through
     * a parent); afterwards an attached manipulator is enabled iff the object is not
     * tracked by Optitrack.
     */
    method Update(mgr: Manager, dt: real)
      requires mgr.tickRate > 0 && !isComposite && ChainValid()
      modifies this, mgr.net, manipulator
      ensures !old(IsOwned(mgr.net.localClientId)) ==>
        State() == old(State()) && mgr.net.outbox == old(mgr.net.outbox)
      ensures old(IsOwned(mgr.net.localClientId)) ==>
        var sends := old(SendsNow(mgr, dt));
        var dest := SyncDest(mgr.deviceType);
        var m := mgr.transform.LocalFull();
        && (!sends ==> State() == old(State()).(sinceSync := old(timeSinceLastSync) + dt) &&
                       mgr.net.outbox == old(mgr.net.outbox))
        && (sends && syncScale ==>
              State() == old(State()).(lastPosition := m.position, lastRotation := m.rotation,
                                       lastScale := m.scale, sinceSync := 0.0) &&
              mgr.net.outbox == old(mgr.net.outbox) +
                [Message(TransformSyncScaleKey, dest, FullSyncPayload(networkObjectId, transform.LocalFull()), DefaultDelivery)])
        && (sends && !syncScale ==>
              State() == old(State()).(lastPosition := m.position, lastRotation := m.rotation, sinceSync := 0.0) &&
              mgr.net.outbox == old(mgr.net.outbox) +
                [Message(TransformSyncKey, dest, TransformSyncPayload(networkObjectId, transform.LocalPose()), DefaultDelivery)])
      ensures mgr.net.log == old(mgr.net.log) && mgr.net.Session() == old(mgr.net.Session())
      ensures manipulator != null ==> manipulator.enabled == (trackingState != OTTRACKED)
      ensures trackingState == old(trackingState) && ownerClientId == old(ownerClientId)
    {
      if IsOwned(mgr.net.localClientId) {
        CheckForTransformUpdate(mgr, dt);
      }
      if manipulator != null {
        GateManipulator(manipulator);
      }
    }

    // ------------------------------------------------------------ tracking state

    /**
     * ChangeTrackedState: sets state and id and reports them to the server as debug lines;
     * entering OTTRACKED notifies the spawner; with `propagate` the change goes to everyone
     * (server) or to the server (client).
     */
    method ChangeTrackedState(state: TrackingState, id: int, propagate: bool, mgr: Manager)
      modifies this, mgr.net, mgr.otSpawner
      ensures State() == old(State()).(tracking := state, trackingID := id)
      ensures mgr.otSpawner != null && state == OTTRACKED ==>
        mgr.otSpawner.spawnOngoing == -1 &&
        mgr.otSpawner.spawnedTrackedObjects == old(mgr.otSpawner.spawnedTrackedObjects) + [this]
      ensures mgr.otSpawner != null && state != OTTRACKED ==>
        mgr.otSpawner.spawnOngoing == old(mgr.otSpawner.spawnOngoing) &&
        mgr.otSpawner.spawnedTrackedObjects == old(mgr.otSpawner.spawnedTrackedObjects)
      ensures mgr.net.outbox == old(mgr.net.outbox) + TrackingNotices(old(mgr.net.messagingReady), state, id) +
        (if propagate then [Message(TrackedStateChangeKey, SyncDest(mgr.deviceType),
                                    StatePayload(networkObjectId, state, id), Reliable)] else [])
      ensures mgr.net.log == old(mgr.net.log) && mgr.net.Session() == old(mgr.net.Session())
    {
      trackingState := state;
      trackingID := id;
      ReportTrackingState(mgr.net, state, id);
      if state == OTTRACKED {
        if mgr.otSpawner != null {
          mgr.otSpawner.spawnOngoing := -1;
          mgr.otSpawner.spawnedTrackedObjects := mgr.otSpawner.spawnedTrackedObjects + [this];
        }
      }
      if propagate {
        if IsServer(mgr.deviceType) {
          mgr.SendTrackedStateChange(this, 1, true);
        } else {
          mgr.SendTrackedStateChange(this, ServerClientId);
        }
      }
    }

    // ------------------------------------------------------------ composite variant

    /** The names a composite resolves: its own name, and those FindRecursive finds. */
    function ResolvableNames(): set<string>
    {
      {transform.name} + childLookup.Keys
    }

    /** The transforms a composite's names resolve to. */
    function ChildTransforms(): set<Transform>
    {
      {transform} + childLookup.Values
    }

    /** A name's transform: this transform for its own name, otherwise FindRecursive's. */
    function Resolve(n: string): (t: Transform)
      requires n in ResolvableNames()
      ensures t in ChildTransforms()
    {
      if n == transform.name then transform else childLookup[n]
    }

    /** FindRecursive finds every name that GetRecursiveChildren lists. */
    predicate LookupCovers()
    {
      NamesOf(hierarchy) <= ResolvableNames()
    }

    /** The transform a received name resolves to, if any: what reading its record may change. */
    function Target(n: string): set<Transform>
    {
      if n in ResolvableNames() then {Resolve(n)} else {}
    }

    /** FindRecursive answers with a transform of the name asked for. */
    predicate LookupByName()
    {
      forall n :: n in childLookup ==> childLookup[n].name == n
    }

    /** With FindRecursive answering by name, reading one name's record leaves other names' transforms alone. */
    lemma OtherTarget(n: string, m: string)
      requires LookupByName() && n in ResolvableNames() && n != m
      ensures Resolve(n) !in Target(m)
    {
      assert Resolve(n).name == n;
    }

    /**
     * A resolved record's pose, read into `child`, becomes the name's last-sent position and
     * rotation; the dictionaries insert a name they do not hold at the end of their order.
     */
    method ReceivePose(child: Transform, name: string, reader: Reader) returns (ghost p: Pose)
      requires FloatsAt(reader.data, reader.pos, 7)
      modifies this, child, reader
      ensures p == DecodePose(reader.data, old(reader.pos)) && reader.pos == old(reader.pos) + 7
      ensures child.LocalPose() == p && child.localScale == old(child.localScale)
      ensures State() == old(State()).(positions := old(lastSentPositionByName)[name := p.position],
        rotations := old(lastSentRotationByName)[name := p.rotation],
        keys := if name in old(keyOrder) then old(keyOrder) else old(keyOrder) + [name])
    {
      ReadTransformPoseFromStream(child, reader, true);
      p := child.LocalPose();
      if name !in keyOrder {
        keyOrder := keyOrder + [name];
      }
      lastSentPositionByName := lastSentPositionByName[name := child.localPosition];
      lastSentRotationByName := lastSentRotationByName[name := child.localRotation];
    }

    /** The composite invariant: the dictionaries are keyed by keyOrder, and every key resolves. */
    ghost predicate CompositeValid()
      reads this`keyOrder, this`lastSentPositionByName, this`lastSentRotationByName, this`lastSentScaleByName
    {
      isComposite &&
      KeyedDictionaries(keyOrder, lastSentPositionByName, lastSentRotationByName, lastSentScaleByName, ResolvableNames())
    }

    /** Every key has a last-sent scale, as Start and every combined send leave it. */
    ghost predicate ScalesCover()
      reads this`keyOrder, this`lastSentScaleByName
    {
      KeySet(keyOrder) <= lastSentScaleByName.Keys
    }

    /**
     * The per-child test, with C#'s short-circuit order: position or rotation beyond its
     * threshold; otherwise, with scale sync, a key without a last-sent scale makes the
     * dictionary lookup throw, and a scale beyond its threshold counts as moved.
     */
    function ChildTest(n: string, geo: Geometry): ChildCheck
      requires n in ResolvableNames() && n in lastSentPositionByName && n in lastSentRotationByName
      reads this`lastSentPositionByName, this`lastSentRotationByName, this`lastSentScaleByName, Resolve(n)
    {
      var c := Resolve(n);
      if geo.distance(lastSentPositionByName[n], c.localPosition) > precision.position ||
         geo.angle(lastSentRotationByName[n], c.localRotation) > precision.rotation
      then Beyond
      else if !syncScale then Within
      else if n !in lastSentScaleByName then ScaleMissing
      else if geo.distance(lastSentScaleByName[n], c.localScale) > precision.scale then Beyond
      else Within
    }

    /** Every key resolves and has the last-sent position and rotation the per-child test consults. */
    ghost predicate Scannable()
      reads this`keyOrder, this`lastSentPositionByName, this`lastSentRotationByName
    {
      forall i :: 0 <= i < |keyOrder| ==>
        && keyOrder[i] in ResolvableNames()
        && keyOrder[i] in lastSentPositionByName && keyOrder[i] in lastSentRotationByName
    }

    lemma ValidScannable()
      requires CompositeValid()
      ensures Scannable()
    {
    }

    /** The first key from index `j` on at which the key loop stops, or the key count if it runs through. */
    ghost function FirstStopFrom(geo: Geometry, j: nat): (k: nat)
      requires Scannable() && j <= |keyOrder|
      reads this`keyOrder, this`lastSentPositionByName, this`lastSentRotationByName, this`lastSentScaleByName,
        ChildTransforms()
      ensures j <= k <= |keyOrder|
      ensures k < |keyOrder| ==> ChildTest(keyOrder[k], geo) != Within
      ensures forall i :: j <= i < k ==> ChildTest(keyOrder[i], geo) == Within
      decreases |keyOrder| - j
    {
      if j == |keyOrder| || ChildTest(keyOrder[j], geo) != Within then j else FirstStopFrom(geo, j + 1)
    }

    /** How a full key scan ends: a moved child, a missing scale, or no stop at all. */
    ghost function ScanResult(geo: Geometry): ChildCheck
      requires Scannable()
      reads this`keyOrder, this`lastSentPositionByName, this`lastSentRotationByName, this`lastSentScaleByName,
        ChildTransforms()
    {
      var k := FirstStopFrom(geo, 0);
      if k == |keyOrder| then Within else ChildTest(keyOrder[k], geo)
    }

    /** Whether the batched check is due this frame. */
    predicate CheckIsDue(mgr: Manager, dt: real)
      requires mgr.tickRate > 0
      reads this`timeSinceLastCheck
    {
      timeSinceLastCheck + dt > SyncInterval(mgr.tickRate) as real
    }

    /** Whether the batched check sends this frame: it is due and the scan stops at a moved child. */
    ghost predicate ParentSendsNow(mgr: Manager, dt: real)
      requires mgr.tickRate > 0 && CompositeValid()
      reads this, ChildTransforms()
    {
      CheckIsDue(mgr, dt) && ScanResult(mgr.geometry) == Beyond
    }

    /** Whether the batched check throws KeyNotFoundException this frame. */
    ghost predicate ParentThrows(mgr: Manager, dt: real)
      requires mgr.tickRate > 0 && CompositeValid()
      reads this, ChildTransforms()
    {
      CheckIsDue(mgr, dt) && ScanResult(mgr.geometry) == ScaleMissing
    }

    /**
     * With a last-sent scale for every key (as after Start or a send) the check never
     * throws, and it sends iff it is due and some key's child moved beyond a threshold.
     */
    lemma ParentSendsNowIffMoved(mgr: Manager, dt: real)
      requires mgr.tickRate > 0 && CompositeValid() && (syncScale ==> ScalesCover())
      ensures !ParentThrows(mgr, dt)
      ensures ParentSendsNow(mgr, dt) <==>
        CheckIsDue(mgr, dt) && exists i :: 0 <= i < |keyOrder| && ChildTest(keyOrder[i], mgr.geometry) == Beyond
    {
      var k := FirstStopFrom(mgr.geometry, 0);
      if k < |keyOrder| {
        assert keyOrder[k] in KeySet(keyOrder);
        assert ChildTest(keyOrder[k], mgr.geometry) == Beyond;
      }
    }

    /**
     * The check throws exactly when it is due and the scan reaches, before any moved child,
     * a key whose lookup of the last-sent scale fails.
     */
    lemma {:induction false} ParentThrowsIffScaleMissing(mgr: Manager, dt: real)
      requires mgr.tickRate > 0 && CompositeValid()
      ensures ParentThrows(mgr, dt) <==>
        && CheckIsDue(mgr, dt)
        && exists k :: 0 <= k < |keyOrder| && ChildTest(keyOrder[k], mgr.geometry) == ScaleMissing
             && forall i :: 0 <= i < k ==> ChildTest(keyOrder[i], mgr.geometry) == Within
    {
      var geo := mgr.geometry;
      var k := FirstStopFrom(geo, 0);
      if exists k' :: 0 <= k' < |keyOrder| && ChildTest(keyOrder[k'], geo) == ScaleMissing
           && forall i :: 0 <= i < k' ==> ChildTest(keyOrder[i], geo) == Within
      {
        var k' :| 0 <= k' < |keyOrder| && ChildTest(keyOrder[k'], geo) == ScaleMissing
           && forall i :: 0 <= i < k' ==> ChildTest(keyOrder[i], geo) == Within;
        assert k == k';
      }
      if k < |keyOrder| && ChildTest(keyOrder[k], geo) == ScaleMissing {
        assert forall i :: 0 <= i < k ==> ChildTest(keyOrder[i], geo) == Within;
      }
    }

    /** A lookup fails exactly for a key without a last-sent scale, under scale sync, whose position and rotation did not move. */
    lemma ScaleMissingIff(n: string, geo: Geometry)
      requires n in ResolvableNames() && n in lastSentPositionByName && n in lastSentRotationByName
      ensures ChildTest(n, geo) == ScaleMissing <==>
        && syncScale && n !in lastSentScaleByName
        && geo.distance(lastSentPositionByName[n], Resolve(n).localPosition) <= precision.position
        && geo.angle(lastSentRotationByName[n], Resolve(n).localRotation) <= precision.rotation
    {
    }

    /** The local position, rotation and scale of each name's transform, in order. */
    function FullsOf(names: seq<string>): (fs: seq<FullPose>)
      requires forall i :: 0 <= i < |names| ==> names[i] in ResolvableNames()
      reads ChildTransforms()
      ensures |fs| == |names|
    {
      if names == [] then []
      else FullsOf(names[..|names| - 1]) + [Resolve(names[|names| - 1]).LocalFull()]
    }

    lemma {:induction false} FullsOfAt(names: seq<string>, i: int)
      requires forall j :: 0 <= j < |names| ==> names[j] in ResolvableNames()
      requires 0 <= i < |names|
      ensures FullsOf(names)[i] == Resolve(names[i]).LocalFull()
      decreases |names|
    {
      if i < |names| - 1 {
        FullsOfAt(names[..|names| - 1], i);
      }
    }

    /**
     * Start of a SynchronizedObjectParent: the three dictionaries are rebuilt with one key
     * per distinct name in the hierarchy, each holding the local values of the first
     * transform of that name.
     */
    method ParentStart()
      requires isComposite
      modifies this
      ensures && lastSentPositionByName == old(FirstPositions(hierarchy, |hierarchy|))
              && lastSentRotationByName == old(FirstRotations(hierarchy, |hierarchy|))
              && lastSentScaleByName == old(FirstScales(hierarchy, |hierarchy|))
              && keyOrder == FirstKeys(hierarchy, |hierarchy|)
      ensures State() == old(State()).(positions := lastSentPositionByName, rotations := lastSentRotationByName,
                                       scales := lastSentScaleByName, keys := keyOrder)
      ensures LookupCovers() ==> CompositeValid() && ScalesCover()
    {
      var positions, rotations, scales, keys := FirstByName(hierarchy);
      FirstByNameValid(hierarchy, ResolvableNames());
      lastSentPositionByName, lastSentRotationByName, lastSentScaleByName, keyOrder := positions, rotations, scales, keys;
    }

    /**
     * The key scan of the batched check, run only when the check is due: the keys in order
     * up to the first that is not within its thresholds. A moved child there means an
     * update; a missing scale there means the lookup throws.
     */
    method ScanIfDue(mgr: Manager, dt: real, ghost first: nat) returns (needsUpdate: bool, thrown: bool, j: nat)
      requires mgr.tickRate > 0 && Scannable() && first == FirstStopFrom(mgr.geometry, 0)
      ensures var stop := if first < |keyOrder| then ChildTest(keyOrder[first], mgr.geometry) else Within;
        && needsUpdate == (CheckIsDue(mgr, dt) && stop == Beyond)
        && thrown == (CheckIsDue(mgr, dt) && stop == ScaleMissing)
      ensures needsUpdate ==> j == first
    {
      needsUpdate, thrown, j := false, false, 0;
      if CheckIsDue(mgr, dt) {
        var geo := mgr.geometry;
        while j < |keyOrder|
          invariant j <= |keyOrder| && FirstStopFrom(geo, j) == first
        {
          var test := ChildTest(keyOrder[j], geo);
          if test != Within {
            needsUpdate, thrown := test == Beyond, test == ScaleMissing;
            return;
          }
          j := j + 1;
        }
      }
    }

    /**
     * The timers and the key scan of the batched check: both timers grow by `dt`; a due
     * check scans the keys up to the first stop. A moved child is logged and restarts the
     * check timer; a missing scale throws before the timer restarts.
     */
    method CheckDue(mgr: Manager, dt: real, ghost first: nat) returns (needsUpdate: bool, thrown: bool)
      requires mgr.tickRate > 0 && Scannable() && first == FirstStopFrom(mgr.geometry, 0)
      modifies this`timeSinceLastCheck, this`timeSinceLastSync, mgr.net
      ensures var due := old(CheckIsDue(mgr, dt));
        var stop := old(if first < |keyOrder| then ChildTest(keyOrder[first], mgr.geometry) else Within);
        && needsUpdate == (due && stop == Beyond)
        && thrown == (due && stop == ScaleMissing)
        && timeSinceLastCheck == (if due && !thrown then 0.0 else old(timeSinceLastCheck) + dt)
        && timeSinceLastSync == old(timeSinceLastSync) + dt
      ensures mgr.net.outbox == old(mgr.net.outbox) && mgr.net.Session() == old(mgr.net.Session())
      ensures mgr.net.log == old(mgr.net.log) +
        (if needsUpdate then [Info(keyOrder[first] + " needs update")] else [])
      ensures State() == old(State()).(sinceSync := timeSinceLastSync, sinceCheck := timeSinceLastCheck)
    {
      var due := CheckIsDue(mgr, dt);
      var j;
      needsUpdate, thrown, j := ScanIfDue(mgr, dt, first);
      timeSinceLastCheck, timeSinceLastSync :=
        (if due && !thrown then 0.0 else timeSinceLastCheck + dt), timeSinceLastSync + dt;
      if needsUpdate {
        mgr.net.Log(Info(keyOrder[j] + " needs update"));
      }
    }

    /**
     * CheckForTransformUpdate of a SynchronizedObjectParent: both timers grow by `dt`; once
     * the check is due, the keys are scanned up to the first stop. A moved child is logged,
     * the check timer restarts, and one combined sync goes to everyone from the server and to
     * the server from a client, restarting the sync timer. A key without a last-sent scale
     * under scale sync throws KeyNotFoundException, reported as `thrown`, with both timers
     * grown and nothing sent or logged.
     */
    method ParentCheckForTransformUpdate(mgr: Manager, dt: real) returns (thrown: bool)
      requires mgr.tickRate > 0 && CompositeValid()
      modifies this, mgr.net
      ensures CompositeValid() && (old(ScalesCover()) ==> ScalesCover()) && unchanged(ChildTransforms())
      ensures thrown == old(ParentThrows(mgr, dt))
      ensures thrown ==>
        && State() == old(State()).(sinceSync := old(timeSinceLastSync) + dt, sinceCheck := old(timeSinceLastCheck) + dt)
        && mgr.net.outbox == old(mgr.net.outbox) && mgr.net.log == old(mgr.net.log)
      ensures var check := if old(CheckIsDue(mgr, dt)) then 0.0 else old(timeSinceLastCheck) + dt;
        !thrown && !old(ParentSendsNow(mgr, dt)) ==>
          && State() == old(State()).(sinceSync := old(timeSinceLastSync) + dt, sinceCheck := check)
          && mgr.net.outbox == old(mgr.net.outbox) && mgr.net.log == old(mgr.net.log)
      ensures old(ParentSendsNow(mgr, dt)) ==>
        && State() == old(State()).(sinceSync := 0.0, sinceCheck := 0.0, positions := lastSentPositionByName,
             rotations := lastSentRotationByName, scales := lastSentScaleByName)
        && HoldsSent(keyOrder, old(FullsOf(keyOrder)), lastSentPositionByName, lastSentRotationByName, lastSentScaleByName)
        && mgr.net.outbox == old(mgr.net.outbox) +
             [Message(CombinedTransformSyncKey, SyncDest(mgr.deviceType),
                      old(CombinedPayload(networkObjectId, |keyOrder|, SendRecords(keyOrder, FullsOf(keyOrder)))),
                      DefaultDelivery)]
        && mgr.net.log == old(mgr.net.log) + [Info(keyOrder[old(FirstStopFrom(mgr.geometry, 0))] + " needs update")]
      ensures mgr.net.Session() == old(mgr.net.Session())
    {
      ValidScannable();
      ghost var fulls, first := FullsOf(keyOrder), FirstStopFrom(mgr.geometry, 0);
      ghost var sends, throws := ParentSendsNow(mgr, dt), ParentThrows(mgr, dt);
      var needsUpdate;
      needsUpdate, thrown := CheckDue(mgr, dt, first);
      assert needsUpdate == sends && thrown == throws;
      if needsUpdate {
        SendBatch(mgr, fulls);
      }
    }

    /** The send of the batched check: to everyone from the server, to the server from a client. */
    method SendBatch(mgr: Manager, ghost fulls: seq<FullPose>)
      requires CompositeValid() && fulls == FullsOf(keyOrder)
      modifies this, mgr.net
      ensures CompositeValid() && ScalesCover() && unchanged(ChildTransforms())
      ensures State() == old(State()).(sinceSync := 0.0, positions := lastSentPositionByName,
                                       rotations := lastSentRotationByName, scales := lastSentScaleByName)
      ensures HoldsSent(keyOrder, fulls, lastSentPositionByName, lastSentRotationByName, lastSentScaleByName)
      ensures mgr.net.outbox == old(mgr.net.outbox) +
        [Message(CombinedTransformSyncKey, SyncDest(mgr.deviceType),
                 CombinedPayload(networkObjectId, |keyOrder|, SendRecords(keyOrder, fulls)), DefaultDelivery)]
      ensures mgr.net.log == old(mgr.net.log) && mgr.net.Session() == old(mgr.net.Session())
    {
      if IsServer(mgr.deviceType) {
        mgr.SendCombinedTransformSync(this, 10000, true);
      } else {
        mgr.SendCombinedTransformSync(this, ServerClientId);
      }
      timeSinceLastSync := 0.0;
    }

    /**
     * Update of a SynchronizedObjectParent: the batched check runs only when this client owns
     * the object; afterwards every manipulator in the hierarchy is enabled iff the object is
     * not tracked by Optitrack. An exception in the check ends the frame before the gating.
     */
    method ParentUpdate(mgr: Manager, dt: real) returns (thrown: bool)
      requires mgr.tickRate > 0 && ChainValid() && CompositeValid()
      modifies this, mgr.net, manipulators
      ensures CompositeValid() && (old(ScalesCover()) ==> ScalesCover())
      ensures !old(IsOwned(mgr.net.localClientId)) ==>
        !thrown && State() == old(State()) && mgr.net.outbox == old(mgr.net.outbox) && mgr.net.log == old(mgr.net.log)
      ensures old(IsOwned(mgr.net.localClientId)) ==>
        && thrown == old(ParentThrows(mgr, dt))
        && (thrown ==>
              && State() == old(State()).(sinceSync := old(timeSinceLastSync) + dt, sinceCheck := old(timeSinceLastCheck) + dt)
              && mgr.net.outbox == old(mgr.net.outbox) && mgr.net.log == old(mgr.net.log))
        && (!thrown && !old(ParentSendsNow(mgr, dt)) ==>
              && State() == old(State()).(sinceSync := old(timeSinceLastSync) + dt,
                   sinceCheck := if old(CheckIsDue(mgr, dt)) then 0.0 else old(timeSinceLastCheck) + dt)
              && mgr.net.outbox == old(mgr.net.outbox) && mgr.net.log == old(mgr.net.log))
        && (old(ParentSendsNow(mgr, dt)) ==>
              && State() == old(State()).(sinceSync := 0.0, sinceCheck := 0.0, positions := lastSentPositionByName,
                   rotations := lastSentRotationByName, scales := lastSentScaleByName)
              && HoldsSent(keyOrder, old(FullsOf(keyOrder)), lastSentPositionByName, lastSentRotationByName, lastSentScaleByName)
              && mgr.net.outbox == old(mgr.net.outbox) +
                   [Message(CombinedTransformSyncKey, SyncDest(mgr.deviceType),
                            old(CombinedPayload(networkObjectId, |keyOrder|, SendRecords(keyOrder, FullsOf(keyOrder)))),
                            DefaultDelivery)]
              && mgr.net.log == old(mgr.net.log) + [Info(keyOrder[old(FirstStopFrom(mgr.geometry, 0))] + " needs update")])
      ensures mgr.net.Session() == old(mgr.net.Session())
      ensures !thrown ==> forall i :: 0 <= i < |manipulators| ==> manipulators[i].enabled == (trackingState != OTTRACKED)
      ensures thrown ==> forall i :: 0 <= i < |manipulators| ==> manipulators[i].enabled == old(manipulators[i].enabled)
    {
      thrown := false;
      if IsOwned(mgr.net.localClientId) {
        thrown := ParentCheckForTransformUpdate(mgr, dt);
      }
      if !thrown {
        GateManipulators();
      }
    }

    /** The gating loop over GetComponentsInChildren<ObjectManipulator>(). */
    method GateManipulators()
      modifies manipulators
      ensures forall i :: 0 <= i < |manipulators| ==> manipulators[i].enabled == (trackingState != OTTRACKED)
    {
      for i := 0 to |manipulators|
        invariant forall k :: 0 <= k < i ==> manipulators[k].enabled == (trackingState != OTTRACKED)
      {
        GateManipulator(manipulators[i]);
      }
    }
  }

  /** The debug lines of ChangeTrackedState, sent in the order of SynchronizedObject.cs:129-132. */
  method ReportTrackingState(net: NetworkRuntime, state: TrackingState, id: int)
    modifies net
    ensures net.outbox == old(net.outbox) + TrackingNotices(old(net.messagingReady), state, id)
    ensures net.log == old(net.log) && net.Session() == old(net.Session())
  {
    ClientDebug.DebugToServer(net, TrackingNoticeText(state, id));
    if state == OTTRACKED {
      ClientDebug.DebugToServer(net, "Received OT_tracked State for " + Text.IntToString(id));
    }
  }

  /** The names of the transforms `ts`. */
  function NamesOf(ts: seq<Transform>): (ns: set<string>)
    ensures forall i :: 0 <= i < |ts| ==> ts[i].name in ns
  {
    if ts == [] then {} else NamesOf(ts[..|ts| - 1]) + {ts[|ts| - 1].name}
  }

  /** A name is among the names exactly when some transform carries it. */
  lemma {:induction false} NamesOfMembers(ts: seq<Transform>, n: string)
    ensures n in NamesOf(ts) <==> exists i :: 0 <= i < |ts| && ts[i].name == n
  {
    if ts != [] {
      NamesOfMembers(ts[..|ts| - 1], n);
      if n in NamesOf(ts[..|ts| - 1]) {
        var i :| 0 <= i < |ts| - 1 && ts[..|ts| - 1][i].name == n;
        assert ts[i].name == n;
      }
    }
  }

  /** The i-th transform of `ts` is the first one named `n`: no earlier transform has that name. */
  predicate FirstNamed(ts: seq<Transform>, i: int, n: string)
  {
    0 <= i < |ts| && ts[i].name == n && n !in NamesOf(ts[..i])
  }

  /** The i-th transform's name was already carried by an earlier one. */
  predicate Seen(ts: seq<Transform>, i: nat)
    requires i < |ts|
  {
    ts[i].name in NamesOf(ts[..i])
  }

  /** The distinct names of the first `i` transforms, in order of first appearance. */
  function FirstKeys(ts: seq<Transform>, i: nat): seq<string>
    requires i <= |ts|
  {
    if i == 0 then [] else if Seen(ts, i - 1) then FirstKeys(ts, i - 1) else FirstKeys(ts, i - 1) + [ts[i - 1].name]
  }

  /** The position dictionary Start builds from the first `i` transforms. */
  function FirstPositions(ts: seq<Transform>, i: nat): map<string, Vec3>
    requires i <= |ts|
    reads ts
  {
    if i == 0 then map[]
    else if Seen(ts, i - 1) then FirstPositions(ts, i - 1)
    else FirstPositions(ts, i - 1)[ts[i - 1].name := ts[i - 1].localPosition]
  }

  /** The rotation dictionary Start builds from the first `i` transforms. */
  function FirstRotations(ts: seq<Transform>, i: nat): map<string, Quat>
    requires i <= |ts|
    reads ts
  {
    if i == 0 then map[]
    else if Seen(ts, i - 1) then FirstRotations(ts, i - 1)
    else FirstRotations(ts, i - 1)[ts[i - 1].name := ts[i - 1].localRotation]
  }

  /** The scale dictionary Start builds from the first `i` transforms. */
  function FirstScales(ts: seq<Transform>, i: nat): map<string, Vec3>
    requires i <= |ts|
    reads ts
  {
    if i == 0 then map[]
    else if Seen(ts, i - 1) then FirstScales(ts, i - 1)
    else FirstScales(ts, i - 1)[ts[i - 1].name := ts[i - 1].localScale]
  }

  /** The names seen grow by one transform's name at a time. */
  lemma NamesOfStep(ts: seq<Transform>, i: nat)
    requires i < |ts|
    ensures NamesOf(ts[..i + 1]) == NamesOf(ts[..i]) + {ts[i].name}
  {
    assert ts[..i + 1][..i] == ts[..i];
  }

  /** The key order holds each name of the first `i` transforms exactly once. */
  lemma {:induction false} FirstKeysNames(ts: seq<Transform>, i: nat)
    requires i <= |ts|
    ensures KeySet(FirstKeys(ts, i)) == NamesOf(ts[..i]) && |KeySet(FirstKeys(ts, i))| == |FirstKeys(ts, i)|
  {
    if i > 0 {
      FirstKeysNames(ts, i - 1);
      NamesOfStep(ts, i - 1);
      var ks := FirstKeys(ts, i - 1);
      if !Seen(ts, i - 1) {
        assert (ks + [ts[i - 1].name])[..|ks|] == ks;
      }
    }
  }

  /** The position dictionary is keyed by the names of the first `i` transforms. */
  lemma {:induction false} FirstPositionsKeys(ts: seq<Transform>, i: nat)
    requires i <= |ts|
    ensures FirstPositions(ts, i).Keys == NamesOf(ts[..i])
  {
    if i > 0 {
      FirstPositionsKeys(ts, i - 1);
      NamesOfStep(ts, i - 1);
    }
  }

  /** The rotation dictionary is keyed by the names of the first `i` transforms. */
  lemma {:induction false} FirstRotationsKeys(ts: seq<Transform>, i: nat)
    requires i <= |ts|
    ensures FirstRotations(ts, i).Keys == NamesOf(ts[..i])
  {
    if i > 0 {
      FirstRotationsKeys(ts, i - 1);
      NamesOfStep(ts, i - 1);
    }
  }

  /** The scale dictionary is keyed by the names of the first `i` transforms. */
  lemma {:induction false} FirstScalesKeys(ts: seq<Transform>, i: nat)
    requires i <= |ts|
    ensures FirstScales(ts, i).Keys == NamesOf(ts[..i])
  {
    if i > 0 {
      FirstScalesKeys(ts, i - 1);
      NamesOfStep(ts, i - 1);
    }
  }

  /** An earlier transform's name keeps its place among the names seen. */
  lemma NamesOfEarlier(ts: seq<Transform>, i: nat, j: nat)
    requires j < i <= |ts|
    ensures ts[j].name in NamesOf(ts[..i])
  {
    assert ts[..i][j] == ts[j];
  }

  /** The first transform of each name sets that name's position. */
  lemma {:induction false} FirstPositionsAt(ts: seq<Transform>, i: nat, j: nat)
    requires j < i <= |ts| && FirstNamed(ts, j, ts[j].name)
    ensures ts[j].name in FirstPositions(ts, i) && FirstPositions(ts, i)[ts[j].name] == ts[j].localPosition
  {
    if j < i - 1 {
      FirstPositionsAt(ts, i - 1, j);
      NamesOfEarlier(ts, i - 1, j);
    }
  }

  /** The first transform of each name sets that name's rotation. */
  lemma {:induction false} FirstRotationsAt(ts: seq<Transform>, i: nat, j: nat)
    requires j < i <= |ts| && FirstNamed(ts, j, ts[j].name)
    ensures ts[j].name in FirstRotations(ts, i) && FirstRotations(ts, i)[ts[j].name] == ts[j].localRotation
  {
    if j < i - 1 {
      FirstRotationsAt(ts, i - 1, j);
      NamesOfEarlier(ts, i - 1, j);
    }
  }

  /** The first transform of each name sets that name's scale. */
  lemma {:induction false} FirstScalesAt(ts: seq<Transform>, i: nat, j: nat)
    requires j < i <= |ts| && FirstNamed(ts, j, ts[j].name)
    ensures ts[j].name in FirstScales(ts, i) && FirstScales(ts, i)[ts[j].name] == ts[j].localScale
  {
    if j < i - 1 {
      FirstScalesAt(ts, i - 1, j);
      NamesOfEarlier(ts, i - 1, j);
    }
  }

  /** The local position, rotation and scale of each transform of `ts`. */
  function LocalsOf(ts: seq<Transform>): (fs: seq<FullPose>)
    reads ts
    ensures |fs| == |ts| && forall i :: 0 <= i < |ts| ==> fs[i] == ts[i].LocalFull()
  {
    seq(|ts|, i requires 0 <= i < |ts| reads ts => ts[i].LocalFull())
  }

  /** Each name's entries hold `locals` of the first transform of that name. */
  ghost predicate HoldsFirst(ts: seq<Transform>, locals: seq<FullPose>,
                             positions: map<string, Vec3>, rotations: map<string, Quat>, scales: map<string, Vec3>)
    requires |locals| == |ts|
  {
    forall i :: 0 <= i < |ts| && FirstNamed(ts, i, ts[i].name) ==>
      && ts[i].name in positions && positions[ts[i].name] == locals[i].position
      && ts[i].name in rotations && rotations[ts[i].name] == locals[i].rotation
      && ts[i].name in scales && scales[ts[i].name] == locals[i].scale
  }

  /**
   * The dictionary-filling loop of SynchronizedObjectParent.Start: for each transform in
   * order whose name is not yet a key, its local position, rotation and scale are added.
   * FirstByNameKeys and FirstByNameValues state what the result holds.
   */
  method FirstByName(ts: seq<Transform>)
    returns (positions: map<string, Vec3>, rotations: map<string, Quat>, scales: map<string, Vec3>, keys: seq<string>)
    ensures && positions == FirstPositions(ts, |ts|) && rotations == FirstRotations(ts, |ts|)
            && scales == FirstScales(ts, |ts|) && keys == FirstKeys(ts, |ts|)
  {
    positions, rotations, scales, keys := map[], map[], map[], [];
    for i := 0 to |ts|
      invariant positions == FirstPositions(ts, i) && rotations == FirstRotations(ts, i)
      invariant scales == FirstScales(ts, i) && keys == FirstKeys(ts, i)
    {
      var t := ts[i];
      FirstPositionsKeys(ts, i);
      if t.name !in positions {
        positions := positions[t.name := t.localPosition];
        rotations := rotations[t.name := t.localRotation];
        scales := scales[t.name := t.localScale];
        keys := keys + [t.name];
      }
    }
  }

  /** Start's key order lists each name of the hierarchy once, and the dictionaries are keyed by it. */
  lemma FirstByNameKeys(ts: seq<Transform>)
    ensures var keys := FirstKeys(ts, |ts|);
      && |KeySet(keys)| == |keys| && KeySet(keys) == NamesOf(ts)
      && FirstPositions(ts, |ts|).Keys == KeySet(keys)
      && FirstRotations(ts, |ts|).Keys == KeySet(keys)
      && FirstScales(ts, |ts|).Keys == KeySet(keys)
  {
    assert ts[..|ts|] == ts;
    FirstKeysNames(ts, |ts|);
    FirstPositionsKeys(ts, |ts|);
    FirstRotationsKeys(ts, |ts|);
    FirstScalesKeys(ts, |ts|);
  }

  /** When every hierarchy name resolves, Start's dictionaries satisfy the composite invariant. */
  lemma FirstByNameValid(ts: seq<Transform>, names: set<string>)
    ensures NamesOf(ts) <= names ==>
      && KeyedDictionaries(FirstKeys(ts, |ts|), FirstPositions(ts, |ts|), FirstRotations(ts, |ts|), FirstScales(ts, |ts|), names)
      && KeySet(FirstKeys(ts, |ts|)) <= FirstScales(ts, |ts|).Keys
  {
    FirstByNameKeys(ts);
  }

  /** Each name of the hierarchy holds the local values of the first transform of that name. */
  lemma FirstByNameValues(ts: seq<Transform>)
    ensures HoldsFirst(ts, LocalsOf(ts), FirstPositions(ts, |ts|), FirstRotations(ts, |ts|), FirstScales(ts, |ts|))
  {
    forall i | 0 <= i < |ts| && FirstNamed(ts, i, ts[i].name)
      ensures && ts[i].name in FirstPositions(ts, |ts|) && FirstPositions(ts, |ts|)[ts[i].name] == ts[i].localPosition
              && ts[i].name in FirstRotations(ts, |ts|) && FirstRotations(ts, |ts|)[ts[i].name] == ts[i].localRotation
              && ts[i].name in FirstScales(ts, |ts|) && FirstScales(ts, |ts|)[ts[i].name] == ts[i].localScale
    {
      FirstPositionsAt(ts, |ts|, i);
      FirstRotationsAt(ts, |ts|, i);
      FirstScalesAt(ts, |ts|, i);
    }
  }

  /** What SpawnSynchronizedObject returns: null on a client, the new object on the server. */
  datatype SpawnOutcome = Forwarded | Spawned(obj: SyncObject) | UnknownPrefab

  /** The arguments of a pending ChangeTrackedStateCR. */
  datatype StateChange = StateChange(sender: ClientId, objectID: ObjectId, state: TrackingState, trackingID: int)

  /**
   * The record loop of SendCombinedTransformSync, after the id and the count: each key's name
   * and its child's local pose go to the writer, and the key's last-sent position, rotation and
   * scale become the child's. `fulls` are the children's local values, key by key.
   */
  method WriteChildRecords(parent: SyncObject, writer: Writer, ghost fulls: seq<FullPose>)
    returns (positions: map<string, Vec3>, rotations: map<string, Quat>, scales: map<string, Vec3>)
    requires forall i :: 0 <= i < |parent.keyOrder| ==> parent.keyOrder[i] in parent.ResolvableNames()
    requires |fulls| == |parent.keyOrder|
    requires forall i :: 0 <= i < |fulls| ==> fulls[i] == parent.Resolve(parent.keyOrder[i]).LocalFull()
    requires writer.data == [U64(parent.networkObjectId), I32(|parent.keyOrder|)]
    modifies writer
    ensures var keys := parent.keyOrder;
      && writer.data == CombinedUpTo(parent.networkObjectId, |keys|, keys, fulls, |keys|)
      && positions == SentPositions(parent.lastSentPositionByName, keys, fulls, |keys|)
      && rotations == SentRotations(parent.lastSentRotationByName, keys, fulls, |keys|)
      && scales == SentScales(parent.lastSentScaleByName, keys, fulls, |keys|)
  {
    var keys := parent.keyOrder;
    ghost var p0, r0, s0 := parent.lastSentPositionByName, parent.lastSentRotationByName, parent.lastSentScaleByName;
    positions, rotations, scales := parent.lastSentPositionByName, parent.lastSentRotationByName, parent.lastSentScaleByName;
    for i := 0 to |keys|
      invariant writer.data == CombinedUpTo(parent.networkObjectId, |keys|, keys, fulls, i)
      invariant positions == SentPositions(p0, keys, fulls, i)
      invariant rotations == SentRotations(r0, keys, fulls, i)
      invariant scales == SentScales(s0, keys, fulls, i)
    {
      var childName := keys[i];
      var child := if parent.transform.name == childName then parent.transform else parent.childLookup[childName];
      writer.WriteString(childName);
      WriteTransformPoseToStream(child, writer, true);
      positions := positions[childName := child.localPosition];
      rotations := rotations[childName := child.localRotation];
      scales := scales[childName := child.localScale];
    }
  }

  /**
   * The buffer of SendCombinedTransformSync: the object id, the dictionary's count, then the
   * records; alongside, the dictionaries as the record loop leaves them.
   */
  method BuildCombined(parent: SyncObject, ghost fulls: seq<FullPose>)
    returns (data: seq<Value>, positions: map<string, Vec3>, rotations: map<string, Quat>, scales: map<string, Vec3>)
    requires forall i :: 0 <= i < |parent.keyOrder| ==> parent.keyOrder[i] in parent.ResolvableNames()
    requires |fulls| == |parent.keyOrder| == |parent.lastSentPositionByName|
    requires forall i :: 0 <= i < |fulls| ==> fulls[i] == parent.Resolve(parent.keyOrder[i]).LocalFull()
    ensures var keys := parent.keyOrder;
      && data == CombinedPayload(parent.networkObjectId, |keys|, SendRecords(keys, fulls))
      && positions == SentPositions(parent.lastSentPositionByName, keys, fulls, |keys|)
      && rotations == SentRotations(parent.lastSentRotationByName, keys, fulls, |keys|)
      && scales == SentScales(parent.lastSentScaleByName, keys, fulls, |keys|)
  {
    var keys := parent.keyOrder;
    var writer := new Writer();
    writer.WriteULong(parent.networkObjectId);
    writer.WriteInt(|parent.lastSentPositionByName|);
    positions, rotations, scales := WriteChildRecords(parent, writer, fulls);
    CombinedUpToPayload(parent.networkObjectId, |keys|, keys, fulls, |keys|);
    assert SendRecords(keys, fulls)[..|keys|] == SendRecords(keys, fulls);
    data := writer.data;
  }

  /**
   * The parent's side of SendCombinedTransformSync: the buffer is built and every key's
   * last-sent position, rotation and scale become its child's local values.
   */
  method RecordCombined(parent: SyncObject) returns (data: seq<Value>)
    requires parent.CompositeValid()
    modifies parent
    ensures parent.CompositeValid() && parent.ScalesCover()
    ensures unchanged(parent.ChildTransforms())
    ensures data == old(CombinedPayload(parent.networkObjectId, |parent.keyOrder|,
                                        SendRecords(parent.keyOrder, parent.FullsOf(parent.keyOrder))))
    ensures parent.State() == old(parent.State()).(positions := parent.lastSentPositionByName,
      rotations := parent.lastSentRotationByName, scales := parent.lastSentScaleByName)
    ensures HoldsSent(parent.keyOrder, old(parent.FullsOf(parent.keyOrder)),
                      parent.lastSentPositionByName, parent.lastSentRotationByName, parent.lastSentScaleByName)
  {
    var keys := parent.keyOrder;
    ghost var st := parent.State();
    ghost var fulls := parent.FullsOf(keys);
    forall i | 0 <= i < |fulls|
      ensures fulls[i] == parent.Resolve(keys[i]).LocalFull()
    {
      parent.FullsOfAt(keys, i);
    }
    KeyedCount(parent.lastSentPositionByName, keys);
    var positions, rotations, scales;
    data, positions, rotations, scales := BuildCombined(parent, fulls);
    SentDictionaries(parent.lastSentPositionByName, parent.lastSentRotationByName, parent.lastSentScaleByName,
                     keys, fulls, parent.ResolvableNames());
    parent.lastSentPositionByName, parent.lastSentRotationByName, parent.lastSentScaleByName :=
      positions, rotations, scales;
    assert parent.State() == st.(positions := positions, rotations := rotations, scales := scales);
  }

  /**
   * One record of a combined sync, as the receiver reads it: the name, then, when the
   * composite resolves it, the pose into that child, which becomes the name's last-sent
   * position and rotation (a name new to the dictionaries joins their order).
   */
  method ReadChildRecord(o: SyncObject, reader: Reader) returns (ghost a: Applied)
    requires DecodeOne(reader.data, reader.pos, o.ResolvableNames()).Some?
    modifies reader, o, o.Target(reader.data[reader.pos].s)
    ensures old(DecodeOne(reader.data, reader.pos, o.ResolvableNames())) == Some((a, reader.pos))
    ensures a.name == reader.data[old(reader.pos)].s && (a.pose.Some? <==> a.name in o.ResolvableNames())
    ensures o.State() == old(o.State()).(positions := ApplyPositions(old(o.lastSentPositionByName), [a]),
      rotations := ApplyRotations(old(o.lastSentRotationByName), [a]), keys := AppendNewNames(old(o.keyOrder), [a]))
    ensures a.pose.Some? ==>
      o.Resolve(a.name).LocalPose() == a.pose.value && o.Resolve(a.name).localScale == old(o.Resolve(a.name).localScale)
  {
    ghost var p0, r0, k0 := o.lastSentPositionByName, o.lastSentRotationByName, o.keyOrder;
    var childName := reader.ReadString();
    if childName == o.transform.name || childName in o.childLookup {
      var child := if o.transform.name == childName then o.transform else o.childLookup[childName];
      ghost var p := o.ReceivePose(child, childName, reader);
      a := Applied(childName, Some(p));
    } else {
      a := Applied(childName, None);
    }
    ApplyOne(p0, r0, k0, a);
  }

  /**
   * What the record loop of CombinedTransformSyncHandler keeps: the first `i` records have been
   * read, the last-sent dictionaries are `s0`'s as those records leave them, and each child a
   * record resolves to holds the pose of the last record naming it.
   */
  ghost predicate ReadUpTo(o: SyncObject, reader: Reader, start: nat, i: nat, s0: ObjectState)
    reads o, reader, o.ChildTransforms()
  {
    var names := o.ResolvableNames();
    && DecodeRecords(reader.data, start, i, names).Some?
    && var (as_, e) := DecodeRecords(reader.data, start, i, names).value;
    && reader.pos == e
    && o.State() == s0.(positions := ApplyPositions(s0.positions, as_), rotations := ApplyRotations(s0.rotations, as_),
                        keys := AppendNewNames(s0.keys, as_))
    && forall n :: n in names && LastPose(as_, n).Some? ==> o.Resolve(n).LocalPose() == LastPose(as_, n).value
  }

  /** Once the loop stops, all `count` records have been read. */
  lemma ReadAllRecords(o: SyncObject, reader: Reader, start: nat, i: nat, count: int, s0: ObjectState)
    requires ReadUpTo(o, reader, start, i, s0) && if 0 < count then i == count else i == 0
    requires o.isComposite && KeyedDictionaries(s0.keys, s0.positions, s0.rotations, s0.scales, o.ResolvableNames())
    ensures o.CompositeValid()
    ensures DecodeRecords(reader.data, start, count, o.ResolvableNames()).Some?
    ensures var (as_, end) := DecodeRecords(reader.data, start, count, o.ResolvableNames()).value;
      && reader.pos == end
      && o.State() == s0.(positions := ApplyPositions(s0.positions, as_), rotations := ApplyRotations(s0.rotations, as_),
                          keys := AppendNewNames(s0.keys, as_))
      && forall n :: n in o.ResolvableNames() && LastPose(as_, n).Some? ==> o.Resolve(n).LocalPose() == LastPose(as_, n).value
  {
    DecodeRecordsUpTo(reader.data, start, i, count, o.ResolvableNames());
    KeyedAfterRecords(reader.data, start, count, o.ResolvableNames(), s0.keys, s0.positions, s0.rotations, s0.scales);
  }

  /** One turn of the record loop: the next of `count` records is read. */
  method ReadNextRecord(o: SyncObject, reader: Reader, count: int, ghost start: nat, ghost i: nat, ghost s0: ObjectState)
    requires o.LookupByName()
    requires i < count && DecodeRecords(reader.data, start, count, o.ResolvableNames()).Some?
    requires ReadUpTo(o, reader, start, i, s0)
    modifies reader, o, o.ChildTransforms()
    ensures ReadUpTo(o, reader, start, i + 1, s0)
  {
    ghost var names := o.ResolvableNames();
    DecodeRecordsPrefix(reader.data, start, count, i, names);
    ghost var (as_, e) := DecodeRecords(reader.data, start, i, names).value;
    label Before:
    var a := ReadChildRecord(o, reader);
    DecodeRecordsNext(reader.data, start, i, names, as_, e, a, reader.pos);
    ApplySnoc(s0.positions, s0.rotations, s0.keys, as_, a);
    forall n | n in names && LastPose(as_ + [a], n).Some?
      ensures o.Resolve(n).LocalPose() == LastPose(as_ + [a], n).value
    {
      if n != a.name {
        o.OtherTarget(n, a.name);
        assert o.Resolve(n).LocalPose() == old@Before(o.Resolve(n).LocalPose());
      }
    }
  }

  /**
   * The record loop of CombinedTransformSyncHandler: `count` records are read one after the
   * other. The last-sent dictionaries end as the resolved records leave them, and each child a
   * record resolves to holds the pose of the last record naming it (FindRecursive answering
   * by name).
   */
  method ReadChildRecords(o: SyncObject, reader: Reader, count: int)
    requires o.CompositeValid() && o.LookupByName()
    requires DecodeRecords(reader.data, reader.pos, count, o.ResolvableNames()).Some?
    modifies reader, o, o.ChildTransforms()
    ensures var (as_, end) := old(DecodeRecords(reader.data, reader.pos, count, o.ResolvableNames())).value;
      var s0 := old(o.State());
      && reader.pos == end
      && o.State() == s0.(positions := ApplyPositions(s0.positions, as_), rotations := ApplyRotations(s0.rotations, as_),
                          keys := AppendNewNames(s0.keys, as_))
      && forall n :: n in o.ResolvableNames() && LastPose(as_, n).Some? ==> o.Resolve(n).LocalPose() == LastPose(as_, n).value
    ensures o.CompositeValid()
  {
    ghost var start := reader.pos;
    ghost var s0 := o.State();
    var i := ReadRecordLoop(o, reader, count, start, s0);
    ReadAllRecords(o, reader, start, i, count, s0);
  }

  /** The loop itself: records are read while fewer than `count` have been. */
  method ReadRecordLoop(o: SyncObject, reader: Reader, count: int, ghost start: nat, ghost s0: ObjectState)
    returns (i: nat)
    requires o.LookupByName() && DecodeRecords(reader.data, start, count, o.ResolvableNames()).Some?
    requires ReadUpTo(o, reader, start, 0, s0)
    modifies reader, o, o.ChildTransforms()
    ensures i == (if 0 < count then count else 0) && ReadUpTo(o, reader, start, i, s0)
  {
    i := 0;
    while i < count
      invariant 0 <= i <= (if 0 < count then count else 0)
      invariant ReadUpTo(o, reader, start, i, s0)
    {
      ReadNextRecord(o, reader, count, start, i, s0);
      i := i + 1;
    }
  }

  /** SynchronizedObjectManager.Instance. */
  class Manager {
    const net: NetworkRuntime
    /** The manager's own transform, which SendTransformSync reads for lastSent*. */
    const transform: Transform
    /** MetaDataHolder's device type. */
    const deviceType: DeviceType
    const geometry: Geometry
    /** NetworkTickSystem.TickRate. */
    const tickRate: nat
    const objectPrefabs: seq<Prefab>
    /** The tracked-object spawner singleton, if one exists. */
    const otSpawner: Spawner?
    /** SpawnManager.SpawnedObjects, each with its SynchronizedObject. */
    var registry: map<ObjectId, SyncObject>
    /** The id the next Spawn assigns. */
    var nextObjectId: ObjectId

    constructor (net: NetworkRuntime, transform: Transform, deviceType: DeviceType, geometry: Geometry,
                 tickRate: nat, objectPrefabs: seq<Prefab>, otSpawner: Spawner?)
      ensures this.net == net && this.transform == transform && this.deviceType == deviceType
      ensures this.geometry == geometry && this.tickRate == tickRate
      ensures this.objectPrefabs == objectPrefabs && this.otSpawner == otSpawner
      ensures registry == map[] && nextObjectId == 0 && Valid()
    {
      this.net := net;
      this.transform := transform;
      this.deviceType := deviceType;
      this.geometry := geometry;
      this.tickRate := tickRate;
      this.objectPrefabs := objectPrefabs;
      this.otSpawner := otSpawner;
      registry := map[];
      nextObjectId := 0;
    }

    /** Every registered object sits under its own id, below the next id to assign. */
    ghost predicate Valid()
      reads this
    {
      forall id :: id in registry ==> registry[id].networkObjectId == id && id < nextObjectId
    }

    function Objects(): set<SyncObject>
      reads this
    {
      set id | id in registry :: registry[id]
    }

    /** The spawner's progress marker and its list of tracked objects; (0, []) without a spawner. */
    ghost function SpawnerState(): (int, seq<SyncObject>)
      reads otSpawner
    {
      if otSpawner == null then (0, []) else (otSpawner.spawnOngoing, otSpawner.spawnedTrackedObjects)
    }

    /**
     * The spawner after `obj` enters `state`: entering OTTRACKED with a spawner marks the spawn
     * as finished (-1) and appends the object; anything else leaves the spawner as it was.
     */
    function TrackedRegistration(sp: (int, seq<SyncObject>), state: TrackingState, obj: SyncObject): (int, seq<SyncObject>)
    {
      if otSpawner != null && state == OTTRACKED then (-1, sp.1 + [obj]) else sp
    }

    /** The object registered under `id` and its transform: what a pose handler may change. */
    function PoseFrame(id: ObjectId): set<object>
      reads this
    {
      if id in registry then {registry[id], registry[id].transform} else {}
    }

    // ------------------------------------------------------------ spawning

    /**
     * SpawnSynchronizedObject: a client forwards the request to the server; the server
     * instantiates the named prefab under a fresh id, hands it to `ownerID` and, unless
     * UNTRACKED, applies and propagates the tracking state. An unknown name is an error.
     */
    method SpawnSynchronizedObject(name: string, ownerID: ClientId, state: TrackingState, trackingID: int)
      returns (r: SpawnOutcome)
      requires Valid()
      modifies this, net, otSpawner
      ensures Valid() && net.log == old(net.log) && net.Session() == old(net.Session())
      ensures !net.isServer ==>
        r == Forwarded && registry == old(registry) && nextObjectId == old(nextObjectId) &&
        SpawnerState() == old(SpawnerState()) &&
        net.outbox == old(net.outbox) +
          [Message(SyncedSpawnKey, ToClient(ServerClientId), SpawnPayload(name, state, trackingID), Reliable)]
      ensures net.isServer && FindPrefab(objectPrefabs, name).None? ==>
        r == UnknownPrefab && registry == old(registry) && nextObjectId == old(nextObjectId) &&
        SpawnerState() == old(SpawnerState()) && net.outbox == old(net.outbox)
      ensures net.isServer && FindPrefab(objectPrefabs, name).Some? ==>
        r.Spawned? && nextObjectId == old(nextObjectId) + 1 &&
        SpawnerState() == TrackedRegistration(old(SpawnerState()), state, r.obj)
      ensures net.isServer && FindPrefab(objectPrefabs, name).Some? ==>
        var p := FindPrefab(objectPrefabs, name).value;
        var s := p.settings.GetOr(DefaultSettings);
        && r.Spawned? && fresh(r.obj) && fresh(r.obj.transform)
        && old(nextObjectId) !in old(registry)
        && r.obj.networkObjectId == old(nextObjectId)
        && registry == old(registry)[old(nextObjectId) := r.obj]
        && r.obj.ownerClientId == ownerID
        && r.obj.syncScale == s.syncScale && r.obj.precision == s.precision
        && r.obj.transform.LocalFull() == p.pose
        && r.obj.trackingState == (if state != UNTRACKED then state else UNTRACKED)
        && r.obj.trackingID == (if state != UNTRACKED then trackingID else s.trackingID)
        && net.outbox == old(net.outbox) +
             (if state != UNTRACKED
              then TrackingNotices(old(net.messagingReady), state, trackingID) +
                   [Message(TrackedStateChangeKey, SyncDest(deviceType),
                            StatePayload(old(nextObjectId), state, trackingID), Reliable)]
              else [])
    {
      if !net.isServer {
        var payload := WriteSpawnRequest(name, state, trackingID);
        net.Send(SyncedSpawnKey, ServerClientId, payload, Reliable);
        return Forwarded;
      }
      var found := FindPrefab(objectPrefabs, name);
      if found.None? {
        return UnknownPrefab;
      }
      var obj := InstantiatePrefab(found.value, nextObjectId, ownerID);
      registry := registry[nextObjectId := obj];
      nextObjectId := nextObjectId + 1;
      if state != UNTRACKED {
        obj.ChangeTrackedState(state, trackingID, true, this);
      }
      return Spawned(obj);
    }

    /**
     * Instantiate and Spawn on the server: a clone of the prefab at its stored pose, with the
     * prefab's SynchronizedObject settings (or a default component), under `id`, owned by `ownerID`.
     */
    static method InstantiatePrefab(prefab: Prefab, id: ObjectId, ownerID: ClientId) returns (obj: SyncObject)
      ensures fresh(obj) && fresh(obj.transform)
      ensures var s := prefab.settings.GetOr(DefaultSettings);
        && obj.networkObjectId == id && obj.ownerClientId == ownerID
        && obj.syncScale == s.syncScale && obj.precision == s.precision
        && obj.transform.LocalFull() == prefab.pose
        && obj.trackingState == UNTRACKED && obj.trackingID == s.trackingID
    {
      var t := new Transform(prefab.name + "(Clone)", null, prefab.pose, prefab.pose);
      var om: Manipulator? := null;
      if prefab.manipulable {
        om := new Manipulator(true);
      }
      obj := new SyncObject(id, t, null, 0, om, prefab.settings.GetOr(DefaultSettings), ServerClientId, [], 0);
      obj.ownerClientId := ownerID;
    }

    /** A client's spawn request: the prefab name, the tracking state and the tracking ID. */
    static method WriteSpawnRequest(name: string, state: TrackingState, trackingID: int) returns (payload: seq<Value>)
      ensures payload == SpawnPayload(name, state, trackingID)
    {
      var writer := new Writer();
      writer.WriteString(name);
      writer.WriteInt(state);
      writer.WriteInt(trackingID);
      payload := writer.data;
    }

    /** The two-argument overload: an UNTRACKED spawn with tracking ID -1. */
    method SpawnUntracked(name: string, ownerID: ClientId) returns (r: SpawnOutcome)
      requires Valid()
      modifies this, net, otSpawner
      ensures Valid() && net.log == old(net.log) && net.Session() == old(net.Session())
      ensures SpawnerState() == old(SpawnerState())
      ensures !net.isServer ==>
        r == Forwarded && registry == old(registry) && nextObjectId == old(nextObjectId) &&
        net.outbox == old(net.outbox) +
          [Message(SyncedSpawnKey, ToClient(ServerClientId), SpawnPayload(name, UNTRACKED, -1), Reliable)]
      ensures net.isServer ==> net.outbox == old(net.outbox)
      ensures net.isServer && FindPrefab(objectPrefabs, name).None? ==>
        r == UnknownPrefab && registry == old(registry) && nextObjectId == old(nextObjectId)
      ensures net.isServer && FindPrefab(objectPrefabs, name).Some? ==> nextObjectId == old(nextObjectId) + 1
      ensures net.isServer && FindPrefab(objectPrefabs, name).Some? ==>
        var p := FindPrefab(objectPrefabs, name).value;
        var s := p.settings.GetOr(DefaultSettings);
        && r.Spawned? && fresh(r.obj) && fresh(r.obj.transform)
        && r.obj.networkObjectId == old(nextObjectId)
        && registry == old(registry)[old(nextObjectId) := r.obj]
        && r.obj.ownerClientId == ownerID
        && r.obj.syncScale == s.syncScale && r.obj.precision == s.precision
        && r.obj.transform.LocalFull() == p.pose
        && r.obj.trackingState == UNTRACKED && r.obj.trackingID == s.trackingID
    {
      r := SpawnSynchronizedObject(name, ownerID, UNTRACKED, -1);
    }

    /**
     * SpawnSynchronizedHandler: spawns the named prefab for the sender; an UNTRACKED request
     * goes through the two-argument overload, so the received tracking ID is dropped.
     */
    method SpawnSynchronizedHandler(sender: ClientId, reader: Reader) returns (r: SpawnOutcome)
      requires Valid()
      requires reader.pos + 3 <= |reader.data|
      requires reader.data[reader.pos].Str? && reader.data[reader.pos + 1].I32? && reader.data[reader.pos + 2].I32?
      modifies this, net, otSpawner, reader
      ensures Valid() && reader.pos == old(reader.pos) + 3
      ensures net.log == old(net.log) && net.Session() == old(net.Session())
      ensures var name := reader.data[old(reader.pos)].s;
        var state := reader.data[old(reader.pos) + 1].i;
        var id := if state == UNTRACKED then -1 else reader.data[old(reader.pos) + 2].i;
        && (!net.isServer ==>
              r == Forwarded && registry == old(registry) && nextObjectId == old(nextObjectId) &&
              SpawnerState() == old(SpawnerState()) &&
              net.outbox == old(net.outbox) +
                [Message(SyncedSpawnKey, ToClient(ServerClientId), SpawnPayload(name, state, id), Reliable)])
        && (net.isServer && FindPrefab(objectPrefabs, name).None? ==>
              r == UnknownPrefab && registry == old(registry) && nextObjectId == old(nextObjectId) &&
              SpawnerState() == old(SpawnerState()) && net.outbox == old(net.outbox))
        && (net.isServer && FindPrefab(objectPrefabs, name).Some? ==>
              r.Spawned? && nextObjectId == old(nextObjectId) + 1 &&
              SpawnerState() == TrackedRegistration(old(SpawnerState()), state, r.obj))
        && (net.isServer && FindPrefab(objectPrefabs, name).Some? ==>
              var p := FindPrefab(objectPrefabs, name).value;
              var s := p.settings.GetOr(DefaultSettings);
              && r.Spawned? && fresh(r.obj) && fresh(r.obj.transform)
              && r.obj.networkObjectId == old(nextObjectId)
              && registry == old(registry)[old(nextObjectId) := r.obj]
              && r.obj.ownerClientId == sender
              && r.obj.syncScale == s.syncScale && r.obj.precision == s.precision
              && r.obj.transform.LocalFull() == p.pose
              && r.obj.trackingState == state
              && r.obj.trackingID == (if state != UNTRACKED then id else s.trackingID)
              && net.outbox == old(net.outbox) +
                   (if state != UNTRACKED
                    then TrackingNotices(old(net.messagingReady), state, id) +
                         [Message(TrackedStateChangeKey, SyncDest(deviceType),
                                  StatePayload(old(nextObjectId), state, id), Reliable)]
                    else []))
    {
      var name := reader.ReadString();
      var state := reader.ReadInt();
      var id := reader.ReadInt();
      if state == UNTRACKED {
        r := SpawnUntracked(name, sender);
      } else {
        r := SpawnSynchronizedObject(name, sender, state, id);
      }
    }

    // ------------------------------------------------------------ tracking state

    /** SendTrackedStateChange: (id, state, tracking id), reliable, to one client or to all. */
    method SendTrackedStateChange(obj: SyncObject, receiver: ClientId, toAll: bool := false)
      modifies net
      ensures net.outbox == old(net.outbox) +
        [Message(TrackedStateChangeKey, if toAll then ToAll else ToClient(receiver),
                 StatePayload(obj.networkObjectId, obj.trackingState, obj.trackingID), Reliable)]
      ensures net.log == old(net.log) && net.Session() == old(net.Session())
    {
      var writer := new Writer();
      writer.WriteULong(obj.networkObjectId);
      writer.WriteInt(obj.trackingState);
      writer.WriteInt(obj.trackingID);
      assert writer.data == StatePayload(obj.networkObjectId, obj.trackingState, obj.trackingID);
      if !toAll {
        net.Send(TrackedStateChangeKey, receiver, writer.data, Reliable);
      } else {
        net.SendToAll(TrackedStateChangeKey, writer.data, Reliable);
      }
    }

    /** TrackedStateChangeHandler: reads (id, state, tracking id) and starts the retrying coroutine. */
    method TrackedStateChangeHandler(sender: ClientId, reader: Reader) returns (pending: StateChange)
      requires reader.pos + 3 <= |reader.data|
      requires reader.data[reader.pos].U64? && reader.data[reader.pos + 1].I32? && reader.data[reader.pos + 2].I32?
      modifies reader
      ensures reader.pos == old(reader.pos) + 3
      ensures pending == StateChange(sender, reader.data[old(reader.pos)].u,
        reader.data[old(reader.pos) + 1].i, reader.data[old(reader.pos) + 2].i)
    {
      var objectID := reader.ReadULong();
      var state := reader.ReadInt();
      var id := reader.ReadInt();
      pending := StateChange(sender, objectID, state, id);
    }

    /**
     * One frame of ChangeTrackedStateCR: while the id is unresolved nothing happens and the
     * coroutine waits; once it resolves the state is applied without propagation, the
     * server relays it to every client but the sender, and the coroutine ends.
     */
    method ChangeTrackedStateStep(c: StateChange) returns (done: bool)
      modifies net, otSpawner, if c.objectID in registry then {registry[c.objectID]} else {}
      ensures done <==> c.objectID in registry
      ensures !done ==> net.outbox == old(net.outbox) && SpawnerState() == old(SpawnerState())
      ensures done ==> SpawnerState() == TrackedRegistration(old(SpawnerState()), c.state, registry[c.objectID])
      ensures done ==> var o := registry[c.objectID];
        && o.State() == old(o.State()).(tracking := c.state, trackingID := c.trackingID)
        && net.outbox == old(net.outbox) + TrackingNotices(old(net.messagingReady), c.state, c.trackingID) +
             (if IsServer(deviceType)
              then Relays(net.connectedClientsIds, c.sender, TrackedStateChangeKey,
                          StatePayload(o.networkObjectId, c.state, c.trackingID), Reliable)
              else [])
      ensures net.log == old(net.log) && net.Session() == old(net.Session())
    {
      if c.objectID !in registry {
        return false;
      }
      var o := registry[c.objectID];
      ghost var notices := TrackingNotices(net.messagingReady, c.state, c.trackingID);
      ghost var spawner := TrackedRegistration(old(SpawnerState()), c.state, o);
      o.ChangeTrackedState(c.state, c.trackingID, false, this);
      assert net.outbox == old(net.outbox) + notices && SpawnerState() == spawner;
      if IsServer(deviceType) {
        var ids := net.connectedClientsIds;
        var payload := StatePayload(o.networkObjectId, c.state, c.trackingID);
        ghost var out0 := net.outbox;
        for i := 0 to |ids|
          invariant net.outbox == out0 + Relays(ids[..i], c.sender, TrackedStateChangeKey, payload, Reliable)
          invariant net.log == old(net.log) && net.Session() == old(net.Session())
          invariant o.State() == old(o.State()).(tracking := c.state, trackingID := c.trackingID)
          invariant SpawnerState() == spawner
        {
          assert ids[..i + 1][..i] == ids[..i];
          if ids[i] != c.sender {
            SendTrackedStateChange(o, ids[i]);
          }
        }
        assert ids[..|ids|] == ids;
      }
      return true;
    }

    // ------------------------------------------------------------ pose sync

    /** The TransformSync payload of an object, written into a fresh buffer. */
    static method WritePoseSync(obj: SyncObject) returns (payload: seq<Value>)
      ensures payload == TransformSyncPayload(obj.networkObjectId, obj.transform.LocalPose())
    {
      var writer := new Writer();
      writer.WriteULong(obj.networkObjectId);
      WriteTransformPoseToStream(obj.transform, writer, true);
      payload := writer.data;
    }

    /**
     * SendTransformSync: (id, local pose) to one client or to all; lastSent position and
     * rotation are then taken from the manager's own transform, not the object's.
     */
    method SendTransformSync(obj: SyncObject, receiver: ClientId, toAll: bool := false)
      modifies net, obj
      ensures net.outbox == old(net.outbox) +
        [Message(TransformSyncKey, if toAll then ToAll else ToClient(receiver),
                 TransformSyncPayload(obj.networkObjectId, obj.transform.LocalPose()), DefaultDelivery)]
      ensures obj.State() == old(obj.State()).(lastPosition := transform.localPosition,
                                               lastRotation := transform.localRotation)
      ensures net.log == old(net.log) && net.Session() == old(net.Session())
    {
      var payload := WritePoseSync(obj);
      if !toAll {
        net.Send(TransformSyncKey, receiver, payload, DefaultDelivery);
      } else {
        net.SendToAll(TransformSyncKey, payload, DefaultDelivery);
      }
      obj.lastSentPosition := transform.localPosition;
      obj.lastSentRotation := transform.localRotation;
    }

    /** The warning for a sync whose id is not registered. */
    static function UnregisteredWarning(objectID: ObjectId): LogLine
    {
      Warning("Received Sync Data for " + Text.Dec(objectID) + "but this ID isnt registered.")
    }

    /**
     * SendCombinedTransformSync: the object id, the number of keys, then a (name, local pose)
     * record per key in dictionary order; every key's last-sent position, rotation and scale
     * become the child's current values.
     */
    method SendCombinedTransformSync(parent: SyncObject, receiver: ClientId, toAll: bool := false)
      requires parent.CompositeValid()
      modifies net, parent
      ensures parent.CompositeValid() && parent.ScalesCover()
      ensures unchanged(parent.ChildTransforms())
      ensures net.outbox == old(net.outbox) +
        [Message(CombinedTransformSyncKey, if toAll then ToAll else ToClient(receiver),
                 old(CombinedPayload(parent.networkObjectId, |parent.keyOrder|,
                                     SendRecords(parent.keyOrder, parent.FullsOf(parent.keyOrder)))),
                 DefaultDelivery)]
      ensures parent.State() == old(parent.State()).(positions := parent.lastSentPositionByName,
        rotations := parent.lastSentRotationByName, scales := parent.lastSentScaleByName)
      ensures HoldsSent(parent.keyOrder, old(parent.FullsOf(parent.keyOrder)),
                        parent.lastSentPositionByName, parent.lastSentRotationByName, parent.lastSentScaleByName)
      ensures net.log == old(net.log) && net.Session() == old(net.Session())
    {
      var data := RecordCombined(parent);
      if !toAll {
        net.Send(CombinedTransformSyncKey, receiver, data, DefaultDelivery);
      } else {
        net.SendToAll(CombinedTransformSyncKey, data, DefaultDelivery);
      }
    }

    /** The warning for a combined sync whose id is not registered. */
    static function UnregisteredParentWarning(objectID: ObjectId): LogLine
    {
      Warning("Received Sync Data for SyncObjectParent " + Text.Dec(objectID) + "but this ID isnt registered.")
    }

    /** The composite registered under `id` and every transform its names resolve to: what a combined sync may change. */
    function CombinedFrame(id: ObjectId): set<object>
      reads this
    {
      if id in registry then {registry[id]} + registry[id].ChildTransforms() else {}
    }

    /**
     * CombinedTransformSyncHandler: a registered composite reads the count and that many
     * records, each resolved child taking its pose, which becomes the name's last-sent
     * position and rotation; the server then relays the composite's own combined sync to
     * every connected client but the sender. An unregistered id only logs a warning.
     */
    method CombinedTransformSyncHandler(sender: ClientId, reader: Reader)
      requires Valid()
      requires reader.pos < |reader.data| && reader.data[reader.pos].U64?
      requires var id := reader.data[reader.pos].u;
        id in registry ==>
          && registry[id].CompositeValid() && registry[id].LookupByName()
          && reader.pos + 1 < |reader.data| && reader.data[reader.pos + 1].I32?
          && DecodeRecords(reader.data, reader.pos + 2, reader.data[reader.pos + 1].i, registry[id].ResolvableNames()).Some?
      modifies reader, net, CombinedFrame(reader.data[reader.pos].u)
      ensures registry == old(registry) && net.Session() == old(net.Session())
      ensures var id := reader.data[old(reader.pos)].u;
        id !in registry ==>
          reader.pos == old(reader.pos) + 1 && net.outbox == old(net.outbox) &&
          net.log == old(net.log) + [UnregisteredParentWarning(id)]
      ensures var id := reader.data[old(reader.pos)].u;
        id in registry ==>
          var o := registry[id];
          var (as_, end) := DecodeRecords(reader.data, old(reader.pos) + 2, reader.data[old(reader.pos) + 1].i,
                                          o.ResolvableNames()).value;
          var relayed := IsServer(deviceType) && Others(net.connectedClientsIds, sender) != [];
          && reader.pos == end
          && o.CompositeValid()
          && (forall n :: n in o.ResolvableNames() && LastPose(as_, n).Some? ==>
                o.Resolve(n).LocalPose() == LastPose(as_, n).value)
          && o.keyOrder == AppendNewNames(old(o.keyOrder), as_)
          && (!relayed ==>
                o.State() == old(o.State()).(positions := ApplyPositions(old(o.lastSentPositionByName), as_),
                  rotations := ApplyRotations(old(o.lastSentRotationByName), as_), keys := o.keyOrder))
          && (relayed ==>
                && o.State() == old(o.State()).(positions := o.lastSentPositionByName,
                     rotations := o.lastSentRotationByName, scales := o.lastSentScaleByName, keys := o.keyOrder)
                && HoldsSent(o.keyOrder, o.FullsOf(o.keyOrder),
                             o.lastSentPositionByName, o.lastSentRotationByName, o.lastSentScaleByName))
          && net.outbox == old(net.outbox) +
               (if IsServer(deviceType)
                then Relays(net.connectedClientsIds, sender, CombinedTransformSyncKey,
                            CombinedPayload(id, |o.keyOrder|, SendRecords(o.keyOrder, o.FullsOf(o.keyOrder))), DefaultDelivery)
                else [])
          && net.log == old(net.log)
    {
      var objectID := reader.ReadULong();
      if objectID !in registry {
        net.Log(UnregisteredParentWarning(objectID));
        return;
      }
      ReceiveCombined(registry[objectID], sender, reader);
    }

    /**
     * The registered branch of CombinedTransformSyncHandler, from the record count on: the
     * records are read into the composite, and the server relays its combined sync.
     */
    method ReceiveCombined(o: SyncObject, sender: ClientId, reader: Reader)
      requires o.CompositeValid() && o.LookupByName()
      requires reader.pos < |reader.data| && reader.data[reader.pos].I32?
      requires DecodeRecords(reader.data, reader.pos + 1, reader.data[reader.pos].i, o.ResolvableNames()).Some?
      modifies reader, net, o, o.ChildTransforms()
      ensures net.Session() == old(net.Session()) && net.log == old(net.log)
      ensures var (as_, end) := DecodeRecords(reader.data, old(reader.pos) + 1, reader.data[old(reader.pos)].i,
                                              o.ResolvableNames()).value;
        var relayed := IsServer(deviceType) && Others(net.connectedClientsIds, sender) != [];
        var s0 := old(o.State());
        && reader.pos == end
        && o.CompositeValid()
        && (forall n :: n in o.ResolvableNames() && LastPose(as_, n).Some? ==>
              o.Resolve(n).LocalPose() == LastPose(as_, n).value)
        && o.keyOrder == AppendNewNames(s0.keys, as_)
        && (!relayed ==>
              o.State() == s0.(positions := ApplyPositions(s0.positions, as_),
                rotations := ApplyRotations(s0.rotations, as_), keys := o.keyOrder))
        && (relayed ==>
              && o.State() == s0.(positions := o.lastSentPositionByName,
                   rotations := o.lastSentRotationByName, scales := o.lastSentScaleByName, keys := o.keyOrder)
              && HoldsSent(o.keyOrder, o.FullsOf(o.keyOrder),
                           o.lastSentPositionByName, o.lastSentRotationByName, o.lastSentScaleByName))
        && net.outbox == old(net.outbox) +
             (if IsServer(deviceType)
              then Relays(net.connectedClientsIds, sender, CombinedTransformSyncKey,
                          CombinedPayload(o.networkObjectId, |o.keyOrder|, SendRecords(o.keyOrder, o.FullsOf(o.keyOrder))),
                          DefaultDelivery)
              else [])
    {
      var count := reader.ReadInt();
      ReadChildRecords(o, reader, count);
      if IsServer(deviceType) {
        RelayCombinedTransformSync(o, sender);
      }
    }

    /**
     * The server's relay loop for a composite: one CombinedTransformSync to every connected
     * client but the sender, all carrying the children's poses as they stand.
     */
    method RelayCombinedTransformSync(o: SyncObject, sender: ClientId)
      requires o.CompositeValid()
      modifies net, o
      ensures o.CompositeValid() && o.FullsOf(o.keyOrder) == old(o.FullsOf(o.keyOrder))
      ensures net.outbox == old(net.outbox) +
        Relays(net.connectedClientsIds, sender, CombinedTransformSyncKey,
               CombinedPayload(o.networkObjectId, |o.keyOrder|, SendRecords(o.keyOrder, o.FullsOf(o.keyOrder))),
               DefaultDelivery)
      ensures Others(net.connectedClientsIds, sender) == [] ==> o.State() == old(o.State())
      ensures Others(net.connectedClientsIds, sender) != [] ==>
        && o.State() == old(o.State()).(positions := o.lastSentPositionByName, rotations := o.lastSentRotationByName,
                                         scales := o.lastSentScaleByName)
        && HoldsSent(o.keyOrder, o.FullsOf(o.keyOrder), o.lastSentPositionByName, o.lastSentRotationByName,
                     o.lastSentScaleByName)
      ensures net.log == old(net.log) && net.Session() == old(net.Session())
    {
      var ids := net.connectedClientsIds;
      ghost var keys, fulls := o.keyOrder, o.FullsOf(o.keyOrder);
      ghost var payload := CombinedPayload(o.networkObjectId, |keys|, SendRecords(keys, fulls));
      for i := 0 to |ids|
        invariant o.CompositeValid() && o.keyOrder == keys && o.FullsOf(keys) == fulls
        invariant net.outbox == old(net.outbox) + Relays(ids[..i], sender, CombinedTransformSyncKey, payload, DefaultDelivery)
        invariant net.log == old(net.log) && net.Session() == old(net.Session())
        invariant Others(ids[..i], sender) == [] ==> o.State() == old(o.State())
        invariant Others(ids[..i], sender) != [] ==>
          && o.State() == old(o.State()).(positions := o.lastSentPositionByName, rotations := o.lastSentRotationByName,
                                           scales := o.lastSentScaleByName)
          && HoldsSent(keys, fulls, o.lastSentPositionByName, o.lastSentRotationByName, o.lastSentScaleByName)
      {
        RelayStep(old(net.outbox), ids, i, sender, CombinedTransformSyncKey, payload, DefaultDelivery);
        if ids[i] != sender {
          SendCombinedTransformSync(o, ids[i]);
        }
      }
      assert ids[..|ids|] == ids;
    }

    /**
     * TransformSyncHandler: a registered object takes the received local pose and records it
     * as last sent; the server relays one TransformSync per connected client other than the
     * sender. An unregistered id only logs a warning.
     */
    method TransformSyncHandler(sender: ClientId, reader: Reader)
      requires Valid()
      requires reader.pos < |reader.data| && reader.data[reader.pos].U64?
      requires reader.data[reader.pos].u in registry ==> FloatsAt(reader.data, reader.pos + 1, 7)
      modifies reader, net, PoseFrame(reader.data[reader.pos].u)
      ensures var id := reader.data[old(reader.pos)].u;
        && (id !in registry ==>
              reader.pos == old(reader.pos) + 1 && net.outbox == old(net.outbox) &&
              net.log == old(net.log) + [UnregisteredWarning(id)])
        && (id in registry ==>
              var o := registry[id];
              var p := DecodePose(reader.data, old(reader.pos) + 1);
              var relayed := IsServer(deviceType) && Others(net.connectedClientsIds, sender) != [];
              var relays := if IsServer(deviceType)
                then Relays(net.connectedClientsIds, sender, TransformSyncKey, TransformSyncPayload(id, p), DefaultDelivery)
                else [];
              var last := if relayed then transform.LocalPose() else p;
              && reader.pos == old(reader.pos) + 8
              && o.transform.LocalPose() == p && o.transform.localScale == old(o.transform.localScale)
              && o.State() == old(o.State()).(lastPosition := last.position, lastRotation := last.rotation)
              && net.outbox == old(net.outbox) + relays && net.log == old(net.log))
      ensures registry == old(registry) && net.Session() == old(net.Session())
    {
      var objectID := reader.ReadULong();
      if objectID !in registry {
        net.Log(UnregisteredWarning(objectID));
        return;
      }
      var o := registry[objectID];
      ApplyPoseSync(o, reader);
      if IsServer(deviceType) {
        RelayTransformSync(o, sender);
      }
    }

    /** The receiving end of a TransformSync: the local pose is read and recorded as last sent. */
    static method ApplyPoseSync(o: SyncObject, reader: Reader)
      requires FloatsAt(reader.data, reader.pos, 7)
      modifies o, o.transform, reader
      ensures reader.pos == old(reader.pos) + 7
      ensures var p := DecodePose(reader.data, old(reader.pos));
        && o.transform.LocalPose() == p && o.transform.localScale == old(o.transform.localScale)
        && o.State() == old(o.State()).(lastPosition := p.position, lastRotation := p.rotation)
    {
      ReadTransformPoseFromStream(o.transform, reader, true);
      o.lastSentPosition, o.lastSentRotation := o.transform.localPosition, o.transform.localRotation;
    }

    /** The server's relay loop: one TransformSync to every connected client but the sender. */
    method RelayTransformSync(o: SyncObject, sender: ClientId)
      modifies net, o
      ensures net.outbox == old(net.outbox) +
        Relays(net.connectedClientsIds, sender, TransformSyncKey,
               TransformSyncPayload(o.networkObjectId, o.transform.LocalPose()), DefaultDelivery)
      ensures Others(net.connectedClientsIds, sender) == [] ==> o.State() == old(o.State())
      ensures Others(net.connectedClientsIds, sender) != [] ==>
        o.State() == old(o.State()).(lastPosition := transform.localPosition, lastRotation := transform.localRotation)
      ensures net.log == old(net.log) && net.Session() == old(net.Session())
    {
      var ids := net.connectedClientsIds;
      ghost var payload := TransformSyncPayload(o.networkObjectId, o.transform.LocalPose());
      for i := 0 to |ids|
        invariant net.outbox == old(net.outbox) + Relays(ids[..i], sender, TransformSyncKey, payload, DefaultDelivery)
        invariant net.log == old(net.log) && net.Session() == old(net.Session())
        invariant Others(ids[..i], sender) == [] ==> o.State() == old(o.State())
        invariant Others(ids[..i], sender) != [] ==>
          o.State() == old(o.State()).(lastPosition := transform.localPosition, lastRotation := transform.localRotation)
      {
        RelayStep(old(net.outbox), ids, i, sender, TransformSyncKey, payload, DefaultDelivery);
        if ids[i] != sender {
          SendTransformSync(o, ids[i]);
        }
      }
      assert ids[..|ids|] == ids;
    }

    /** The ScaleTransformSync payload of an object, written into a fresh buffer. */
    static method WriteFullSync(obj: SyncObject) returns (payload: seq<Value>)
      ensures payload == FullSyncPayload(obj.networkObjectId, obj.transform.LocalFull())
    {
      var writer := new Writer();
      writer.WriteULong(obj.networkObjectId);
      WriteFullTransformToStream(obj.transform, writer, true);
      payload := writer.data;
    }

    /** SendFullTransformSync: (id, local pose, scale); lastSent* again from the manager's transform. */
    method SendFullTransformSync(obj: SyncObject, receiver: ClientId, toAll: bool := false)
      modifies net, obj
      ensures net.outbox == old(net.outbox) +
        [Message(TransformSyncScaleKey, if toAll then ToAll else ToClient(receiver),
                 FullSyncPayload(obj.networkObjectId, obj.transform.LocalFull()), DefaultDelivery)]
      ensures obj.State() == old(obj.State()).(lastPosition := transform.localPosition,
        lastRotation := transform.localRotation, lastScale := transform.localScale)
      ensures net.log == old(net.log) && net.Session() == old(net.Session())
    {
      var payload := WriteFullSync(obj);
      if !toAll {
        net.Send(TransformSyncScaleKey, receiver, payload, DefaultDelivery);
      } else {
        net.SendToAll(TransformSyncScaleKey, payload, DefaultDelivery);
      }
      obj.lastSentPosition, obj.lastSentRotation, obj.lastSentScale :=
        transform.localPosition, transform.localRotation, transform.localScale;
    }

    /**
     * FullTransformSyncHandler: like the pose handler with scale; an unregistered id is
     * ignored without a warning.
     */
    method FullTransformSyncHandler(sender: ClientId, reader: Reader)
      requires Valid()
      requires reader.pos < |reader.data| && reader.data[reader.pos].U64?
      requires reader.data[reader.pos].u in registry ==> FloatsAt(reader.data, reader.pos + 1, 10)
      modifies reader, net, PoseFrame(reader.data[reader.pos].u)
      ensures var id := reader.data[old(reader.pos)].u;
        id !in registry ==> reader.pos == old(reader.pos) + 1 && net.outbox == old(net.outbox)
      ensures var id := reader.data[old(reader.pos)].u;
        id in registry ==>
          var p := DecodeFull(reader.data, old(reader.pos) + 1);
          && reader.pos == old(reader.pos) + 11
          && registry[id].transform.LocalFull() == p
          && net.outbox == old(net.outbox) +
             if IsServer(deviceType)
             then Relays(net.connectedClientsIds, sender, TransformSyncScaleKey, FullSyncPayload(id, p), DefaultDelivery)
             else []
      ensures var id := reader.data[old(reader.pos)].u;
        id in registry ==>
          var p := DecodeFull(reader.data, old(reader.pos) + 1);
          var last := if IsServer(deviceType) && Others(net.connectedClientsIds, sender) != []
            then transform.LocalFull() else p;
          registry[id].State() ==
            old(registry[id].State()).(lastPosition := last.position, lastRotation := last.rotation,
                                       lastScale := last.scale)
      ensures registry == old(registry) && net.log == old(net.log) && net.Session() == old(net.Session())
    {
      var objectID := reader.ReadULong();
      if objectID !in registry {
        return;
      }
      var o := registry[objectID];
      ApplyFullSync(o, reader, geometry.mul);
      if IsServer(deviceType) {
        RelayFullTransformSync(o, sender);
      }
    }

    /** The receiving end of a ScaleTransformSync: the local transform is read and recorded as last sent. */
    static method ApplyFullSync(o: SyncObject, reader: Reader, mul: (Float32, Float32) -> Float32)
      requires FloatsAt(reader.data, reader.pos, 10)
      modifies o, o.transform, reader
      ensures reader.pos == old(reader.pos) + 10
      ensures var p := DecodeFull(reader.data, old(reader.pos));
        && o.transform.LocalFull() == p
        && o.State() == old(o.State()).(lastPosition := p.position, lastRotation := p.rotation, lastScale := p.scale)
    {
      ReadFullTransformFromStream(o.transform, reader, true, mul);
      o.lastSentPosition, o.lastSentRotation, o.lastSentScale :=
        o.transform.localPosition, o.transform.localRotation, o.transform.localScale;
    }

    /** The server's relay loop: one ScaleTransformSync to every connected client but the sender. */
    method RelayFullTransformSync(o: SyncObject, sender: ClientId)
      modifies net, o
      ensures net.outbox == old(net.outbox) +
        Relays(net.connectedClientsIds, sender, TransformSyncScaleKey,
               FullSyncPayload(o.networkObjectId, o.transform.LocalFull()), DefaultDelivery)
      ensures Others(net.connectedClientsIds, sender) == [] ==> o.State() == old(o.State())
      ensures Others(net.connectedClientsIds, sender) != [] ==>
        o.State() == old(o.State()).(lastPosition := transform.localPosition, lastRotation := transform.localRotation,
                                     lastScale := transform.localScale)
      ensures net.log == old(net.log) && net.Session() == old(net.Session())
    {
      var ids := net.connectedClientsIds;
      ghost var payload := FullSyncPayload(o.networkObjectId, o.transform.LocalFull());
      for i := 0 to |ids|
        invariant net.outbox == old(net.outbox) + Relays(ids[..i], sender, TransformSyncScaleKey, payload, DefaultDelivery)
        invariant net.log == old(net.log) && net.Session() == old(net.Session())
        invariant Others(ids[..i], sender) == [] ==> o.State() == old(o.State())
        invariant Others(ids[..i], sender) != [] ==>
          o.State() == old(o.State()).(lastPosition := transform.localPosition, lastRotation := transform.localRotation,
                                       lastScale := transform.localScale)
      {
        RelayStep(old(net.outbox), ids, i, sender, TransformSyncScaleKey, payload, DefaultDelivery);
        if ids[i] != sender {
          SendFullTransformSync(o, ids[i]);
        }
      }
      assert ids[..|ids|] == ids;
    }

    // ------------------------------------------------------------ ownership

    /**
     * RequestOwnership: an HL or OT client asks the server, reliably; any other role hands
     * the registered object to `clientID`, and does nothing for an unknown id.
     */
    method RequestOwnership(clientID: ClientId, objectID: ObjectId)
      modifies net, if !(IsHLClient(deviceType) || IsOTClient(deviceType)) && objectID in registry
                    then {registry[objectID]} else {}
      ensures IsHLClient(deviceType) || IsOTClient(deviceType) ==>
        net.outbox == old(net.outbox) + [OwnershipRequest(clientID, objectID)]
      ensures !(IsHLClient(deviceType) || IsOTClient(deviceType)) ==>
        net.outbox == old(net.outbox) &&
        (objectID in registry ==>
          registry[objectID].State() == old(registry[objectID].State()).(owner := clientID))
      ensures forall o :: o in Objects() && !(!(IsHLClient(deviceType) || IsOTClient(deviceType)) &&
                                             objectID in registry && o == registry[objectID]) ==>
        o.State() == old(o.State())
      ensures net.log == old(net.log) && net.Session() == old(net.Session())
    {
      if IsHLClient(deviceType) || IsOTClient(deviceType) {
        var writer := new Writer();
        writer.WriteULong(clientID);
        writer.WriteULong(objectID);
        assert writer.data == OwnershipPayload(clientID, objectID);
        net.Send(OwnershipRequestKey, ServerClientId, writer.data, Reliable);
      } else if objectID in registry {
        registry[objectID].ownerClientId := clientID;
      }
    }

    /** RequestOwnershipHandler: reads (owner, object) and requests or grants accordingly. */
    method RequestOwnershipHandler(sender: ClientId, reader: Reader)
      requires reader.pos + 2 <= |reader.data|
      requires reader.data[reader.pos].U64? && reader.data[reader.pos + 1].U64?
      modifies reader, net, if reader.data[reader.pos + 1].u in registry then {registry[reader.data[reader.pos + 1].u]} else {}
      ensures reader.pos == old(reader.pos) + 2
      ensures var owner := reader.data[old(reader.pos)].u;
        var objectID := reader.data[old(reader.pos) + 1].u;
        && (IsHLClient(deviceType) || IsOTClient(deviceType) ==>
              net.outbox == old(net.outbox) + [OwnershipRequest(owner, objectID)])
        && (!(IsHLClient(deviceType) || IsOTClient(deviceType)) ==>
              && net.outbox == old(net.outbox)
              && (objectID in registry ==>
                    registry[objectID].State() == old(registry[objectID].State()).(owner := owner)))
        && (forall o :: o in Objects() && !(!(IsHLClient(deviceType) || IsOTClient(deviceType)) &&
                                            objectID in registry && o == registry[objectID]) ==>
              o.State() == old(o.State()))
      ensures net.log == old(net.log) && net.Session() == old(net.Session())
    {
      var owner := reader.ReadULong();
      var objectID := reader.ReadULong();
      RequestOwnership(owner, objectID);
    }
  }
}
