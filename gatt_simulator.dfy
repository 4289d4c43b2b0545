/**
 * `BluetoothGATT` of the simulator build. It differs from the device build
 * in these ways:
 *  - the connection status is not stored: reading it reports the radio's
 *    peripheral state, and assigning it only tells every observer, changed
 *    or not;
 *  - a new observer always hears the current status;
 *  - services and characteristics are matched by exact UUID equality, and a
 *    missing one reports no failure;
 *  - characteristic discovery asks for the declared characteristic UUIDs;
 *  - a disconnect keeps a by-user flag and turns every other one into
 *    by-system, and leaves auto-reconnect alone;
 *  - a notification with data is delivered even when an error comes with it;
 *  - there is no RSSI reading, no connection timeout monitor and no
 *    initializer from a bare peripheral.
 */
module GattSimulator {
  import opened Foundation
  import opened GattCommon
  import Radio
  import opened GattService
  import opened GattCharacteristic
  import opened GattProfile
  import Session = GattSession

  /** What an observer is told: the simulator delegate receives the radio's peripheral state. */
  datatype Event =
    | ConnectStatusChanged(state: Radio.PeripheralState)
    | InitializeStateChanged(initializeState: InitializeState)

  /** `BluetoothTaskQueue` events of the simulator build. */
  datatype TaskEvent =
    | DidInitialized
    | DidWriteCharacteristic(written: Radio.NativeCharacteristic)
    | DidUpdateCharacteristicNotificationState(updated: Radio.NativeCharacteristic)
    | DidReadCharacteristic(read: Radio.NativeCharacteristic, data: seq<Byte>)

  /** A call into a collaborator whose code is not part of this model. */
  datatype Call =
    | Push(task: Session.Task)
    | Execute
    | Process(event: TaskEvent, error: Option<TaskError>)
    | ResetAfterDisconnected
    | DiscoverCharacteristics(uuids: seq<Radio.Uuid>, service: Radio.NativeService)  // peripheral.discoverCharacteristics(_:for:)
    | CombinerReceive(sink: Session.SinkId, payload: seq<Byte>)
    | DeliverNotifyFailure(sink: Session.SinkId, notifyError: GattError)
    | CompleteSetNotify(result: Session.NotifyStateResult)

  /** The disconnect flag after a disconnect: by-user stays, anything else becomes by-system. */
  function DisconnectFlagAfter(flag: DisconnectFlag): (r: DisconnectFlag)
    ensures r == ByUser || r == BySystem
    ensures r == ByUser <==> flag == ByUser
  {
    if flag != ByUser then BySystem else ByUser
  }

  /** Repeated disconnects do not change the flag further. */
  lemma DisconnectFlagSettles(flag: DisconnectFlag)
    ensures DisconnectFlagAfter(DisconnectFlagAfter(flag)) == DisconnectFlagAfter(flag)
  {
  }

  /** The first reported service whose UUID is exactly `uuid`, by direct recursion. */
  function FindExact(rs: seq<Radio.NativeService>, uuid: Radio.Uuid): Option<Radio.NativeService>
    decreases |rs|
  {
    if |rs| == 0 then None
    else if rs[0].uuid == uuid then Some(rs[0])
    else FindExact(rs[1..], uuid)
  }

  /** The recursion is `first(where:)` with the exact UUID test. */
  lemma {:induction false} FindExactIsFirstWhere(rs: seq<Radio.NativeService>, uuid: Radio.Uuid)
    ensures FindExact(rs, uuid) == FirstWhere(rs, (n: Radio.NativeService) => n.uuid == uuid)
    decreases |rs|
  {
    if |rs| > 0 {
      FindExactIsFirstWhere(rs[1..], uuid);
    }
  }

  /** The reported service with exactly the declared UUID (`first(where: { $0.uuid == gattService.uuid })`). */
  function MatchReportedService(reported: Option<seq<Radio.NativeService>>, uuid: Radio.Uuid): Option<Radio.NativeService> {
    match reported
    case None => None
    case Some(rs) => FindExact(rs, uuid)
  }

  /** Exact matching finds a service only where the device build's case-insensitive matching also finds one. */
  lemma ExactMatchImpliesCaseInsensitiveMatch(reported: Option<seq<Radio.NativeService>>, uuid: Radio.Uuid)
    ensures MatchReportedService(reported, uuid).Some? ==> Session.MatchReportedService(reported, uuid).Some?
  {
    if MatchReportedService(reported, uuid).Some? {
      var rs := reported.value;
      FindExactIsFirstWhere(rs, uuid);
      FirstWhereFound(rs, (n: Radio.NativeService) => n.uuid == uuid);
      var i :| 0 <= i < |rs| && rs[i].uuid == uuid;
      assert SameIgnoringCase(rs[i].uuid, uuid);
      Session.FindIgnoringCaseIsFirstWhere(rs, uuid);
    }
  }

  /** A matched service is one of the reported services and has exactly the declared UUID. */
  lemma MatchedServiceIsReported(reported: Option<seq<Radio.NativeService>>, uuid: Radio.Uuid)
    ensures MatchReportedService(reported, uuid).Some? ==>
      reported.Some? && MatchReportedService(reported, uuid).value in reported.value &&
      MatchReportedService(reported, uuid).value.uuid == uuid
  {
    if MatchReportedService(reported, uuid).Some? {
      FindExactIsFirstWhere(reported.value, uuid);
      FirstWhereFound(reported.value, (n: Radio.NativeService) => n.uuid == uuid);
    }
  }

  /** The UUIDs of the declared characteristics of the service `serviceUuid`, in declaration order. */
  function CharacteristicUuidsOf(cs: seq<Characteristic>, serviceUuid: Radio.Uuid): (r: seq<Radio.Uuid>)
    ensures |r| <= |cs|
    ensures forall k :: 0 <= k < |r| ==> exists c :: c in cs && c.service.uuid == serviceUuid && c.uuid == r[k]
    ensures forall i :: 0 <= i < |cs| && cs[i].service.uuid == serviceUuid ==> cs[i].uuid in r
    decreases |cs|
  {
    if |cs| == 0 then []
    else
      var rest := CharacteristicUuidsOf(cs[1..], serviceUuid);
      assert forall i :: 1 <= i < |cs| ==> cs[i] == cs[1..][i - 1];
      assert forall c :: c in cs[1..] ==> c in cs;
      if cs[0].service.uuid == serviceUuid then [cs[0].uuid] + rest else rest
  }

  /** A declared service's handle after the services-discovered callback. */
  function ServiceHandleAfter(reported: Option<seq<Radio.NativeService>>, s: Service, prior: Option<Radio.NativeService>): Option<Radio.NativeService> {
    match MatchReportedService(reported, s.uuid)
    case Some(n) => Some(n)
    case None => prior
  }

  /** The call made for one declared service: characteristic discovery, for the declared UUIDs, when it is reported. */
  function ServiceDiscoveryStep(reported: Option<seq<Radio.NativeService>>, s: Service, cs: seq<Characteristic>): seq<Call> {
    match MatchReportedService(reported, s.uuid)
    case Some(n) => [DiscoverCharacteristics(CharacteristicUuidsOf(cs, s.uuid), n)]
    case None => []
  }

  /**
   * The calls made by the services-discovered callback: characteristic
   * discovery, for the declared UUIDs, for each declared service that is
   * reported; nothing for one that is not.
   */
  function ServiceDiscoveryCalls(reported: Option<seq<Radio.NativeService>>, ss: seq<Service>, cs: seq<Characteristic>): seq<Call>
    decreases |ss|
  {
    if |ss| == 0 then []
    else ServiceDiscoveryCalls(reported, ss[..|ss| - 1], cs) + ServiceDiscoveryStep(reported, ss[|ss| - 1], cs)
  }

  /**
   * Discovery makes at most one call per declared service, each a
   * characteristic discovery of a reported service, and none when the
   * peripheral reports no services.
   */
  lemma {:induction false} ServiceDiscoveryCallsReported(reported: Option<seq<Radio.NativeService>>, ss: seq<Service>, cs: seq<Characteristic>)
    ensures |ServiceDiscoveryCalls(reported, ss, cs)| <= |ss|
    ensures forall k :: 0 <= k < |ServiceDiscoveryCalls(reported, ss, cs)| ==>
      ServiceDiscoveryCalls(reported, ss, cs)[k].DiscoverCharacteristics? && reported.Some? &&
      ServiceDiscoveryCalls(reported, ss, cs)[k].service in reported.value
    ensures reported.None? ==> ServiceDiscoveryCalls(reported, ss, cs) == []
    decreases |ss|
  {
    if |ss| > 0 {
      ServiceDiscoveryCallsReported(reported, ss[..|ss| - 1], cs);
      MatchedServiceIsReported(reported, ss[|ss| - 1].uuid);
    }
  }

  /** Handling one more declared service appends its step to the calls. */
  lemma ServiceDiscoveryCallsExtend(reported: Option<seq<Radio.NativeService>>, ss: seq<Service>, cs: seq<Characteristic>, i: nat)
    requires i < |ss|
    ensures ServiceDiscoveryCalls(reported, ss[..i + 1], cs) ==
      ServiceDiscoveryCalls(reported, ss[..i], cs) + ServiceDiscoveryStep(reported, ss[i], cs)
  {
    assert ss[..i + 1][..i] == ss[..i];
  }

  /** A declared characteristic's handle after resolving the characteristics of the declared service `scope` against `natives`. */
  function ResolvedHandle(scope: Radio.Uuid, natives: seq<Radio.NativeCharacteristic>, c: Characteristic,
                          prior: Option<Radio.NativeCharacteristic>): Option<Radio.NativeCharacteristic> {
    if c.service.uuid == scope then
      match FirstWhere(natives, (n: Radio.NativeCharacteristic) => n.uuid == c.uuid)
      case Some(n) => Some(n)
      case None => prior
    else prior
  }

  /** The declared service a reported service belongs to, by exact UUID. */
  function MatchDeclaredService(ss: seq<Service>, uuid: Radio.Uuid): Option<Service> {
    FirstWhere(ss, (s: Service) => s.uuid == uuid)
  }

  /** A declared characteristic's handle after the characteristics-discovered callback for `service`. */
  function CharacteristicHandleAfter(ss: seq<Service>, service: Radio.NativeService, c: Characteristic,
                                     prior: Option<Radio.NativeCharacteristic>): Option<Radio.NativeCharacteristic> {
    match MatchDeclaredService(ss, service.uuid)
    case Some(m) => ResolvedHandle(m.uuid, service.characteristics.GetOr([]), c, prior)
    case None => prior
  }

  /** A resolved characteristic takes a reported characteristic with exactly its UUID, of the service it belongs to. */
  lemma ResolvedHandleSpec(ss: seq<Service>, service: Radio.NativeService, c: Characteristic,
                           prior: Option<Radio.NativeCharacteristic>)
    ensures CharacteristicHandleAfter(ss, service, c, prior) != prior ==>
      c.service.uuid == service.uuid &&
      CharacteristicHandleAfter(ss, service, c, prior).Some? &&
      CharacteristicHandleAfter(ss, service, c, prior).value in service.characteristics.GetOr([]) &&
      CharacteristicHandleAfter(ss, service, c, prior).value.uuid == c.uuid
  {
    var m := MatchDeclaredService(ss, service.uuid);
    if m.Some? {
      FirstWhereFound(ss, (s: Service) => s.uuid == service.uuid);
      var natives := service.characteristics.GetOr([]);
      if FirstWhere(natives, (n: Radio.NativeCharacteristic) => n.uuid == c.uuid).Some? {
        FirstWhereFound(natives, (n: Radio.NativeCharacteristic) => n.uuid == c.uuid);
      }
    }
  }

  /**
   * The calls made by `didUpdateValueFor`: the read part as in the device
   * build; in the notify part data is delivered whenever present, and an
   * error only when there is no data.
   */
  function ValueUpdateCalls(cs: seq<Characteristic>, listeners: map<Radio.Uuid, Session.Listener>,
                            n: Radio.NativeCharacteristic, error: Option<string>): seq<Call> {
    match Session.DeclaredFor(cs, n)
    case None => []
    case Some(d) =>
      if d.kind.Contains(Read) && n.value.None? then []
      else
        (if d.kind.Contains(Read) then [Process(DidReadCharacteristic(n, n.value.value), PlatformError(error))] else [])
        + (if d.kind.Contains(Notify) && n.uuid in listeners then
             if n.value.Some? then [CombinerReceive(listeners[n.uuid].sink, n.value.value)]
             else if error.Some? then [DeliverNotifyFailure(listeners[n.uuid].sink, GattNotifyFailed(None))]
             else []
           else [])
  }

  /**
   * For a notify-only characteristic in the simulator build: with a listener
   * installed, data wins over an error, and the failure carries no message;
   * without one, nothing is delivered.
   */
  lemma NotifyDataWinsOverError(cs: seq<Characteristic>, listeners: map<Radio.Uuid, Session.Listener>,
                                n: Radio.NativeCharacteristic, error: Option<string>)
    requires Session.DeclaredFor(cs, n).Some?
    requires var d := Session.DeclaredFor(cs, n).value; d.kind.Contains(Notify) && !d.kind.Contains(Read)
    ensures n.uuid in listeners && n.value.Some? ==>
      ValueUpdateCalls(cs, listeners, n, error) == [CombinerReceive(listeners[n.uuid].sink, n.value.value)]
    ensures n.uuid in listeners && n.value.None? && error.Some? ==>
      ValueUpdateCalls(cs, listeners, n, error) == [DeliverNotifyFailure(listeners[n.uuid].sink, GattNotifyFailed(None))]
    ensures n.uuid in listeners && n.value.None? && error.None? ==> ValueUpdateCalls(cs, listeners, n, error) == []
    ensures n.uuid !in listeners ==> ValueUpdateCalls(cs, listeners, n, error) == []
  {
  }

  /** An update for an undeclared UUID is ignored. */
  lemma UndeclaredUpdateIgnored(cs: seq<Characteristic>, listeners: map<Radio.Uuid, Session.Listener>,
                                n: Radio.NativeCharacteristic, error: Option<string>)
    requires forall i :: 0 <= i < |cs| ==> cs[i].uuid != n.uuid
    ensures ValueUpdateCalls(cs, listeners, n, error) == []
  {
  }

  /**
   * A value for a read-capable characteristic goes to the task queue first,
   * with the platform error if any; a characteristic that also notifies and
   * has a listener then receives the data, whatever the error.
   */
  lemma ReadValueGoesToQueue(cs: seq<Characteristic>, listeners: map<Radio.Uuid, Session.Listener>,
                             n: Radio.NativeCharacteristic, error: Option<string>)
    requires Session.DeclaredFor(cs, n).Some? && Session.DeclaredFor(cs, n).value.kind.Contains(Read) && n.value.Some?
    ensures var r := ValueUpdateCalls(cs, listeners, n, error);
      var read := Process(DidReadCharacteristic(n, n.value.value), PlatformError(error));
      var notifies := Session.DeclaredFor(cs, n).value.kind.Contains(Notify) && n.uuid in listeners;
      (notifies ==> r == [read, CombinerReceive(listeners[n.uuid].sink, n.value.value)]) &&
      (!notifies ==> r == [read])
  {
  }

  /**
   * An update without a value for a read-capable characteristic makes no
   * call, even when it also notifies and has a listener: the read guard
   * returns first, so an error then reports no `gattNotifyFailed`.
   */
  lemma ReadWithoutValueDeliversNothing(cs: seq<Characteristic>, listeners: map<Radio.Uuid, Session.Listener>,
                                        n: Radio.NativeCharacteristic, error: Option<string>)
    requires Session.DeclaredFor(cs, n).Some? && Session.DeclaredFor(cs, n).value.kind.Contains(Read) && n.value.None?
    ensures ValueUpdateCalls(cs, listeners, n, error) == []
  {
  }

  /** A declared characteristic that neither reads nor notifies makes no call. */
  lemma UnroutedKindIgnored(cs: seq<Characteristic>, listeners: map<Radio.Uuid, Session.Listener>,
                            n: Radio.NativeCharacteristic, error: Option<string>)
    requires Session.DeclaredFor(cs, n).Some?
    requires var d := Session.DeclaredFor(cs, n).value; !d.kind.Contains(Read) && !d.kind.Contains(Notify)
    ensures ValueUpdateCalls(cs, listeners, n, error) == []
  {
  }

  class BluetoothGatt {
    var localName: Option<string>
    var autoReconnect: bool
    var connectPriority: ConnectPriority
    const deviceId: Option<string>
    var peripheral: Option<Radio.NativePeripheral>
    var disconnectFlag: DisconnectFlag
    const profile: Profile
    const maximumWriteLength: int
    var observers: seq<Session.ObserverId>
    var deviceInitialized: bool
    var initializeStatus: InitializeState
    var listeners: map<Radio.Uuid, Session.Listener>
    var notifications: seq<Session.Notification<Event>>
    ghost var calls: seq<Call>

    /** The state both initializers start from. */
    ghost predicate Fresh()
      reads this
    {
      autoReconnect && connectPriority == Required && disconnectFlag == NoReason && observers == [] &&
      !deviceInitialized && initializeStatus == NotStarted && listeners == map[] && notifications == [] && calls == []
    }

    /** `init(with discovery:)` */
    constructor FromDiscovery(deviceId: Option<string>, peripheral: Radio.NativePeripheral, localName: string,
                              declared: seq<Characteristic>, maximumWriteLength: int)
      ensures this.deviceId == deviceId && this.peripheral == Some(peripheral) && this.localName == Some(localName)
      ensures profile == NewProfile(declared) && this.maximumWriteLength == maximumWriteLength
      ensures Fresh()
    {
      this.deviceId := deviceId;
      this.peripheral := Some(peripheral);
      this.localName := Some(localName);
      profile := NewProfile(declared);
      this.maximumWriteLength := maximumWriteLength;
      autoReconnect, connectPriority, disconnectFlag := true, Required, NoReason;
      observers, deviceInitialized, initializeStatus, listeners := [], false, NotStarted, map[];
      notifications, calls := [], [];
    }

    /** `init(with deviceId:)` */
    constructor FromDeviceId(deviceId: string, declared: seq<Characteristic>, maximumWriteLength: int)
      ensures this.deviceId == Some(deviceId) && peripheral == None && localName == None
      ensures profile == NewProfile(declared) && this.maximumWriteLength == maximumWriteLength
      ensures Fresh()
    {
      this.deviceId := Some(deviceId);
      peripheral := None;
      localName := None;
      profile := NewProfile(declared);
      this.maximumWriteLength := maximumWriteLength;
      autoReconnect, connectPriority, disconnectFlag := true, Required, NoReason;
      observers, deviceInitialized, initializeStatus, listeners := [], false, NotStarted, map[];
      notifications, calls := [], [];
    }

    /** Reading `connectStatus`: the radio's state of the peripheral, disconnected when there is none. */
    function ConnectStatus(): (r: Radio.PeripheralState)
      reads this, if peripheral.Some? then {peripheral.value} else {}
      ensures peripheral.None? ==> r == Radio.Disconnected
      ensures peripheral.Some? ==> r == peripheral.value.state
    {
      match peripheral
      case None => Radio.Disconnected
      case Some(p) => p.state
    }

    /** `isReadyToInitiate` */
    function IsReadyToInitiate(): bool
      reads profile.services, profile.characteristics
    {
      ProfileResolved(profile)
    }

    /** Calls `event` on every observer, in order. */
    method NotifyObservers(event: Event)
      modifies this`notifications
      ensures notifications == old(notifications) + Session.Broadcast(observers, event)
    {
      var i := 0;
      while i < |observers|
        invariant 0 <= i <= |observers|
        invariant notifications == old(notifications) + Session.Broadcast(observers[..i], event)
      {
        notifications := notifications + [Session.Notification(observers[i], event)];
        i := i + 1;
        assert Session.Broadcast(observers[..i], event) == Session.Broadcast(observers[..i - 1], event) + [Session.Notification(observers[i - 1], event)];
      }
      assert observers[..i] == observers;
    }

    /** Assigning `connectStatus`: every observer hears the new value; nothing is stored. */
    method AnnounceConnectStatus(status: Radio.PeripheralState)
      modifies this`notifications
      ensures notifications == old(notifications) + Session.Broadcast(observers, ConnectStatusChanged(status))
    {
      NotifyObservers(ConnectStatusChanged(status));
    }

    /** Assigning `initializeStatus`: its `willSet` tells every observer. */
    method SetInitializeStatus(state: InitializeState)
      modifies this`initializeStatus, this`notifications
      ensures initializeStatus == state
      ensures notifications == old(notifications) + Session.Broadcast(observers, InitializeStateChanged(state))
    {
      NotifyObservers(InitializeStateChanged(state));
      initializeStatus := state;
    }

    /** `addBluetoothGattDelegate(_:)`: the new observer always hears the current status. */
    method AddObserver(observer: Session.ObserverId)
      modifies this`observers, this`notifications
      ensures observers == old(observers) + [observer]
      ensures notifications == old(notifications) + [Session.Notification(observer, ConnectStatusChanged(ConnectStatus()))]
    {
      observers := observers + [observer];
      notifications := notifications + [Session.Notification(observer, ConnectStatusChanged(ConnectStatus()))];
    }

    /** `removeBluetoothGattDelegate(_:)` */
    method RemoveObserver(observer: Session.ObserverId)
      modifies this`observers
      ensures observers == Session.Without(old(observers), observer)
    {
      observers := Session.Without(observers, observer);
    }

    /** `writeData(_:characteristic:completion:)` */
    method WriteData(data: seq<Byte>, characteristic: Characteristic) returns (submission: Submission)
      modifies this`calls
      ensures peripheral.None? ==> submission == Rejected(GattDisconnected) && calls == old(calls)
      ensures peripheral.Some? && SelectWriteType(characteristic).Failure? ==>
        submission == Rejected(SelectWriteType(characteristic).error) && calls == old(calls)
      ensures peripheral.Some? && SelectWriteType(characteristic).Success? ==>
        submission == Queued &&
        calls == old(calls) + [Push(Session.WriteTask(characteristic, data, SelectWriteType(characteristic).value, maximumWriteLength)), Execute]
    {
      if peripheral.None? {
        return Rejected(GattDisconnected);
      }
      var writeType: WriteType;
      if characteristic.kind.Contains(WriteWithResponse) {
        writeType := WithResponse;
      } else if characteristic.kind.Contains(WriteWithoutResponse) {
        writeType := WithoutResponse;
      } else {
        return Rejected(WriteNotSupport(characteristic.uuid));
      }
      calls := calls + [Push(Session.WriteTask(characteristic, data, writeType, maximumWriteLength)), Execute];
      submission := Queued;
    }

    /** `readData(characteristic:completion:)` */
    method ReadData(characteristic: Characteristic) returns (submission: Submission)
      modifies this`calls
      ensures peripheral.None? ==> submission == Rejected(GattDisconnected) && calls == old(calls)
      ensures peripheral.Some? ==> submission == Queued && calls == old(calls) + [Push(Session.ReadTask(characteristic)), Execute]
    {
      if peripheral.None? {
        return Rejected(GattDisconnected);
      }
      calls := calls + [Push(Session.ReadTask(characteristic)), Execute];
      submission := Queued;
    }

    /** `listenTo(characteristic:notify:completion:notifyDataCallback:)` */
    method ListenTo(characteristic: Characteristic, notify: bool, sink: Session.SinkId) returns (submission: Submission)
      modifies this`calls
      ensures peripheral.None? ==> submission == Rejected(GattDisconnected) && calls == old(calls)
      ensures peripheral.Some? ==>
        submission == Queued && calls == old(calls) + [Push(Session.SetNotifyTask(characteristic, notify, sink)), Execute]
    {
      if peripheral.None? {
        return Rejected(GattDisconnected);
      }
      calls := calls + [Push(Session.SetNotifyTask(characteristic, notify, sink)), Execute];
      submission := Queued;
    }

    /** The callback of the set-notify task. */
    method OnSetNotifyResult(characteristic: Characteristic, sink: Session.SinkId, result: Session.NotifyStateResult)
      modifies this`listeners, this`calls
      ensures listeners == Session.ListenersAfter(old(listeners), characteristic.uuid, sink, result)
      ensures calls == old(calls) + [CompleteSetNotify(result)]
    {
      if result.NotifyStateChanged? {
        if result.notifying {
          listeners := listeners[characteristic.uuid := Session.Listener(sink)];
        } else {
          listeners := listeners - {characteristic.uuid};
        }
      }
      calls := calls + [CompleteSetNotify(result)];
    }

    /** `initiateDevice()` */
    method InitiateDevice()
      modifies this`calls, this`deviceInitialized
      ensures deviceInitialized
      ensures calls == old(calls) + (if old(deviceInitialized) then [] else [Process(DidInitialized, None)])
    {
      if deviceInitialized {
        return;
      }
      calls := calls + [Process(DidInitialized, None)];
      deviceInitialized := true;
    }

    /** `onGattConnecting()` */
    method OnGattConnecting()
      modifies this`notifications
      ensures notifications == old(notifications) + Session.Broadcast(observers, ConnectStatusChanged(Radio.Connecting))
    {
      AnnounceConnectStatus(Radio.Connecting);
    }

    /** `onGattConnected()`: discovery first, for a session not yet initialized, then the status. */
    method OnGattConnected()
      modifies this`notifications, this`calls, this`initializeStatus
      ensures old(deviceInitialized) ==>
        initializeStatus == old(initializeStatus) && calls == old(calls) &&
        notifications == old(notifications) + Session.Broadcast(observers, ConnectStatusChanged(Radio.Connected))
      ensures !old(deviceInitialized) ==>
        initializeStatus == (if peripheral.Some? then Initializing else Failed) &&
        calls == old(calls) + (if peripheral.Some? then [Push(Session.InitializeTask(profile)), Execute] else []) &&
        notifications == old(notifications) + Session.Broadcast(observers, InitializeStateChanged(initializeStatus))
                         + Session.Broadcast(observers, ConnectStatusChanged(Radio.Connected))
    {
      if !deviceInitialized {
        DiscoverService();
      }
      AnnounceConnectStatus(Radio.Connected);
    }

    /** `onGattDisconnecting()` */
    method OnGattDisconnecting()
      modifies this`notifications
      ensures notifications == old(notifications) + Session.Broadcast(observers, ConnectStatusChanged(Radio.Disconnecting))
    {
      AnnounceConnectStatus(Radio.Disconnecting);
    }

    /** `onGattDisconnected()`: announces the disconnect, settles the flag and resets the session. */
    method OnGattDisconnected()
      modifies this`notifications, this`disconnectFlag, this`deviceInitialized, this`calls,
               profile.services, profile.characteristics
      ensures notifications == old(notifications) + Session.Broadcast(observers, ConnectStatusChanged(Radio.Disconnected))
      ensures disconnectFlag == DisconnectFlagAfter(old(disconnectFlag))
      ensures !deviceInitialized
      ensures forall s :: s in profile.services ==> s.handle.None?
      ensures forall c :: c in profile.characteristics ==> c.handle.None?
      ensures calls == old(calls) + [ResetAfterDisconnected]
    {
      AnnounceConnectStatus(Radio.Disconnected);
      if disconnectFlag != ByUser {
        disconnectFlag := BySystem;
      }
      ResetDevice();
    }

    /** `discoverService()` */
    method DiscoverService()
      modifies this`initializeStatus, this`notifications, this`calls
      ensures peripheral.None? ==> initializeStatus == Failed && calls == old(calls)
      ensures peripheral.Some? ==> initializeStatus == Initializing && calls == old(calls) + [Push(Session.InitializeTask(profile)), Execute]
      ensures notifications == old(notifications) + Session.Broadcast(observers, InitializeStateChanged(initializeStatus))
    {
      if peripheral.None? {
        SetInitializeStatus(Failed);
        return;
      }
      SetInitializeStatus(Initializing);
      calls := calls + [Push(Session.InitializeTask(profile)), Execute];
    }

    /** The callback of the initialize task. */
    method OnInitializeResult(succeeded: bool)
      modifies this`initializeStatus, this`notifications
      ensures initializeStatus == (if succeeded then Initialized else Failed)
      ensures notifications == old(notifications) + Session.Broadcast(observers, InitializeStateChanged(initializeStatus))
    {
      if succeeded {
        SetInitializeStatus(Initialized);
      } else {
        SetInitializeStatus(Failed);
      }
    }

    /** `resetDevice()` */
    method ResetDevice()
      modifies profile.services, profile.characteristics, this`calls, this`deviceInitialized
      ensures forall s :: s in profile.services ==> s.handle.None?
      ensures forall c :: c in profile.characteristics ==> c.handle.None?
      ensures calls == old(calls) + [ResetAfterDisconnected]
      ensures !deviceInitialized
    {
      var i := 0;
      while i < |profile.services|
        modifies profile.services
        invariant 0 <= i <= |profile.services|
        invariant forall k :: 0 <= k < i ==> profile.services[k].handle.None?
      {
        profile.services[i].handle := None;
        i := i + 1;
      }
      var j := 0;
      while j < |profile.characteristics|
        modifies profile.characteristics
        invariant 0 <= j <= |profile.characteristics|
        invariant forall k :: 0 <= k < j ==> profile.characteristics[k].handle.None?
      {
        profile.characteristics[j].handle := None;
        j := j + 1;
      }
      calls := calls + [ResetAfterDisconnected];
      deviceInitialized := false;
    }

    /** `peripheral(_:didDiscoverServices:)` */
    method DidDiscoverServices(reported: Option<seq<Radio.NativeService>>)
      modifies profile.services, this`calls
      ensures forall s :: s in profile.services ==> s.handle == ServiceHandleAfter(reported, s, old(s.handle))
      ensures calls == old(calls) + ServiceDiscoveryCalls(reported, profile.services, profile.characteristics)
    {
      ghost var made := ResolveServices(profile.services, reported, profile.characteristics);
      calls := calls + made;
    }

    /** The loop of the services-discovered callback over the declared services `ss`; `made` is the calls it makes, in order. */
    method ResolveServices(ss: seq<Service>, reported: Option<seq<Radio.NativeService>>, cs: seq<Characteristic>) returns (ghost made: seq<Call>)
      modifies ss
      ensures forall s :: s in ss ==> s.handle == ServiceHandleAfter(reported, s, old(s.handle))
      ensures made == ServiceDiscoveryCalls(reported, ss, cs)
    {
      made := [];
      ghost var done: set<Service> := {};
      var i := 0;
      while i < |ss|
        modifies ss
        invariant 0 <= i <= |ss|
        invariant done == set k | 0 <= k < i :: ss[k]
        invariant forall s :: s in ss ==>
          s.handle == (if s in done then ServiceHandleAfter(reported, s, old(s.handle)) else old(s.handle))
        invariant made == ServiceDiscoveryCalls(reported, ss[..i], cs)
      {
        var s := ss[i];
        ServiceDiscoveryCallsExtend(reported, ss, cs, i);
        ghost var step := ResolveService(s, reported, cs);
        made := made + step;
        done := done + {s};
        i := i + 1;
      }
      assert ss[..i] == ss;
    }

    /** The loop body of the services-discovered callback for one declared service; `step` is the call it makes. */
    method ResolveService(s: Service, reported: Option<seq<Radio.NativeService>>, cs: seq<Characteristic>) returns (ghost step: seq<Call>)
      modifies s
      ensures s.handle == ServiceHandleAfter(reported, s, old(s.handle))
      ensures step == ServiceDiscoveryStep(reported, s, cs)
    {
      var matched := MatchReportedService(reported, s.uuid);
      if matched.Some? {
        s.handle := matched;
        step := [DiscoverCharacteristics(CharacteristicUuidsOf(cs, s.uuid), matched.value)];
      }
      else {
        step := [];
      }
    }

    /** The matching loop of the characteristics-discovered callback, by exact UUID. */
    method ResolveCharacteristics(scope: Radio.Uuid, natives: seq<Radio.NativeCharacteristic>)
      modifies profile.characteristics
      ensures forall c :: c in profile.characteristics ==> c.handle == ResolvedHandle(scope, natives, c, old(c.handle))
    {
      var cs := profile.characteristics;
      ghost var done: set<Characteristic> := {};
      var i := 0;
      while i < |cs|
        modifies cs
        invariant 0 <= i <= |cs|
        invariant done == set k | 0 <= k < i :: cs[k]
        invariant forall c :: c in cs ==>
          c.handle == (if c in done then ResolvedHandle(scope, natives, c, old(c.handle)) else old(c.handle))
      {
        var c := cs[i];
        if c.service.uuid == scope {
          var hit := FirstWhere(natives, (n: Radio.NativeCharacteristic) => n.uuid == c.uuid);
          if hit.Some? {
            c.handle := hit;
          }
        }
        done := done + {c};
        i := i + 1;
      }
    }

    /** `peripheral(_:didDiscoverCharacteristicsFor:error:)`: no failure is reported for a missing characteristic. */
    method DidDiscoverCharacteristics(service: Radio.NativeService)
      modifies profile.characteristics, this`calls, this`deviceInitialized
      ensures forall c :: c in profile.characteristics ==>
        c.handle == CharacteristicHandleAfter(profile.services, service, c, old(c.handle))
      ensures calls == old(calls) + (if IsReadyToInitiate() && !old(deviceInitialized) then [Process(DidInitialized, None)] else [])
      ensures deviceInitialized == (old(deviceInitialized) || IsReadyToInitiate())
    {
      var matched := MatchDeclaredService(profile.services, service.uuid);
      if matched.Some? {
        ResolveCharacteristics(matched.value.uuid, service.characteristics.GetOr([]));
      }
      if IsReadyToInitiate() {
        InitiateDevice();
      }
    }

    /** `peripheral(_:didWriteValueFor:error:)` */
    method DidWriteValue(characteristic: Radio.NativeCharacteristic, error: Option<string>)
      modifies this`calls
      ensures calls == old(calls) + [Process(DidWriteCharacteristic(characteristic), PlatformError(error))]
    {
      calls := calls + [Process(DidWriteCharacteristic(characteristic), PlatformError(error))];
    }

    /** `peripheral(_:didUpdateNotificationStateFor:error:)` */
    method DidUpdateNotificationState(characteristic: Radio.NativeCharacteristic, error: Option<string>)
      modifies this`calls
      ensures calls == old(calls) + [Process(DidUpdateCharacteristicNotificationState(characteristic), PlatformError(error))]
    {
      calls := calls + [Process(DidUpdateCharacteristicNotificationState(characteristic), PlatformError(error))];
    }

    /** `peripheral(_:didUpdateValueFor:error:)` */
    method DidUpdateValue(characteristic: Radio.NativeCharacteristic, error: Option<string>)
      modifies this`calls
      ensures calls == old(calls) + ValueUpdateCalls(profile.characteristics, listeners, characteristic, error)
    {
      var declared := Session.DeclaredFor(profile.characteristics, characteristic);
      if declared.None? {
        return;
      }
      var d := declared.value;
      if d.kind.Contains(Read) {
        if characteristic.value.None? {
          return;
        }
        calls := calls + [Process(DidReadCharacteristic(characteristic, characteristic.value.value), PlatformError(error))];
      }
      if d.kind.Contains(Notify) {
        if characteristic.uuid !in listeners {
          return;
        }
        var listener := listeners[characteristic.uuid];
        if characteristic.value.Some? {
          calls := calls + [CombinerReceive(listener.sink, characteristic.value.value)];
        } else if error.Some? {
          calls := calls + [DeliverNotifyFailure(listener.sink, GattNotifyFailed(None))];
        }
      }
    }
  }
}
