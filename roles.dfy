/**
 * MetaDataHolder: the process's configured device type and study condition, the role
 * predicates every component branches on, and the network start it triggers.
 */
module Roles {
  /** CustomDeviceType, as its integer code: SERVER is the first member, hence the default. */
  type DeviceType = int
  const SERVER: DeviceType := 0
  const HLCLIENT: DeviceType := 1
  const OTCLIENT: DeviceType := 2

  /** ConditionInfo, as its integer code. */
  type Condition = int
  const PING: Condition := 0
  const NOPING: Condition := 1

  predicate IsServer(d: DeviceType) { d == SERVER }
  predicate IsHLClient(d: DeviceType) { d == HLCLIENT }
  predicate IsOTClient(d: DeviceType) { d == OTCLIENT }
  predicate PingsActive(c: Condition) { c == PING }

  /** A named member of CustomDeviceType. */
  predicate IsDeviceType(d: DeviceType) { SERVER <= d <= OTCLIENT }

  /** Exactly one role predicate holds, and it does so exactly for the three named device types. */
  lemma ExactlyOneRole(d: DeviceType)
    ensures IsDeviceType(d) <==>
      ((IsServer(d) && !IsHLClient(d) && !IsOTClient(d)) ||
       (!IsServer(d) && IsHLClient(d) && !IsOTClient(d)) ||
       (!IsServer(d) && !IsHLClient(d) && IsOTClient(d)))
  {
  }

  datatype NetworkStart = StartClient | StartServer | NoStart

  /** StartServerNextFrame: which side of the network a device type starts. */
  function StartFor(d: DeviceType): (s: NetworkStart)
    ensures s == StartServer <==> IsServer(d)
    ensures s == StartClient <==> IsHLClient(d) || IsOTClient(d)
  {
    if d == HLCLIENT then StartClient
    else if d == OTCLIENT then StartClient
    else if d == SERVER then StartServer
    else NoStart
  }

  /** One MetaDataHolder component in the scene. */
  class MetaDataHolder {
    const deviceType: DeviceType
    const condition: Condition
    const immediateNetworkStart: bool

    constructor (deviceType: DeviceType, condition: Condition, immediateNetworkStart: bool)
      ensures this.deviceType == deviceType && this.condition == condition
      ensures this.immediateNetworkStart == immediateNetworkStart
    {
      this.deviceType := deviceType;
      this.condition := condition;
      this.immediateNetworkStart := immediateNetworkStart;
    }

    /** Start: schedules StartServerNextFrame only when immediateNetworkStart is set. */
    function StartAction(): (s: NetworkStart)
      ensures !immediateNetworkStart ==> s == NoStart
      ensures immediateNetworkStart ==> s == StartFor(deviceType)
    {
      if immediateNetworkStart then StartFor(deviceType) else NoStart
    }
  }

  /** The static `instance` slot behind MetaDataHolder.Instance. */
  class InstanceSlot {
    var instance: MetaDataHolder?

    constructor ()
      ensures instance == null
    {
      instance := null;
    }

    /** Awake: stores the component. */
    method Awake(holder: MetaDataHolder)
      modifies this
      ensures instance == holder
    {
      instance := holder;
    }

    /**
     * The Instance getter: re-resolves through the scene search (`found`) only when the stored
     * instance is non-null, and otherwise returns the stored null.
     */
    method Get(found: MetaDataHolder?) returns (r: MetaDataHolder?)
      modifies this
      ensures old(instance) == null ==> r == null && instance == null
      ensures old(instance) != null ==> r == found && instance == found
    {
      if instance != null {
        instance := found;
      }
      r := instance;
    }
  }
}
