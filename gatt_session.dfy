/**
 * `BluetoothGATT` of the device (arm64) build: the session with one
 * peripheral. It tracks the connection status and tells its observers when
 * the status changes, drives profile discovery, resolves the declared
 * services and characteristics against what the peripheral reports, checks
 * and queues read, write and subscribe requests, routes value updates and
 * keeps the table of notify listeners.
 *
 * The task queue, the timeout monitor, the notify data combiner, the central
 * manager and the radio's `discoverCharacteristics` are collaborators whose
 * code is not part of this model: each call into them is appended to the
 * ghost trace `calls`. Calls into observers are appended to `notifications`.
 */
module GattSession {
  import opened Foundation
  import opened GattCommon
  import Radio
  import opened GattService
  import opened GattCharacteristic
  import opened GattProfile

  /** `BluetoothPeripheralConnectStatus` */
  datatype ConnectStatus = Disconnected(flag: DisconnectFlag) | Connecting | Connected | Disconnecting

  /** The custom `==`: two `disconnected` values are equal whatever their flags. */
  predicate SameStatus(a: ConnectStatus, b: ConnectStatus) {
    match (a, b)
    case (Disconnected(_), Disconnected(_)) => true
    case (Connecting, Connecting) => true
    case (Connected, Connected) => true
    case (Disconnecting, Disconnecting) => true
    case _ => false
  }

  /** Status equality ignores the disconnect flag and is plain equality on the other cases. */
  lemma SameStatusIgnoresFlag(a: ConnectStatus, b: ConnectStatus)
    ensures SameStatus(a, b) <==> (a.Disconnected? && b.Disconnected?) || a == b
    ensures SameStatus(a, a)
    ensures SameStatus(a, b) ==> SameStatus(b, a)
  {
  }

  /** The auto-reconnect decision taken on each disconnect. */
  function AutoReconnectFor(flag: DisconnectFlag): bool {
    match flag
    case ByUser => false
    case BySystem => true
    case PoweredOff => true
    case Unpair => false
    case NoReason => false
    case Timeout => false
  }

  /** Only a disconnect by the system or by powering off asks for a reconnect. */
  lemma AutoReconnectTable(flag: DisconnectFlag)
    ensures AutoReconnectFor(flag) <==> flag == BySystem || flag == PoweredOff
  {
  }

  type ObserverId = nat
  /** The `notifyDataCallback` (with its packet type) that a listener feeds. */
  type SinkId = nat

  /** What an observer (`BluetoothGATTDelegate`) is told. */
  datatype Event =
    | ConnectStatusChanged(status: ConnectStatus)
    | InitializeStateChanged(state: InitializeState)
    | RssiRead(rssi: int)

  /** One call on an observer, carrying the event it is told (an `Event` in this build). */
  datatype Notification<E> = Notification(observer: ObserverId, event: E)

  /** One call of `event` on each observer, in registration order. */
  function Broadcast<E>(observers: seq<ObserverId>, e: E): (r: seq<Notification<E>>)
    ensures |r| == |observers|
    ensures forall i :: 0 <= i < |observers| ==> r[i] == Notification(observers[i], e)
  {
    seq(|observers|, i requires 0 <= i < |observers| => Notification(observers[i], e))
  }

  /** The observer calls made by the `connectStatus` `didSet` when `before` is replaced by `after`. */
  function StatusNotifications(observers: seq<ObserverId>, before: ConnectStatus, after: ConnectStatus): seq<Notification<Event>> {
    if SameStatus(after, before) then [] else Broadcast(observers, ConnectStatusChanged(after))
  }

  /** Observers hear of a status assignment exactly when the status changes under `SameStatus`. */
  lemma NotifiesOnlyOnChange(observers: seq<ObserverId>, before: ConnectStatus, after: ConnectStatus)
    ensures StatusNotifications(observers, before, after) == [] <==> SameStatus(before, after) || observers == []
    ensures !SameStatus(before, after) ==>
      forall i :: 0 <= i < |observers| ==>
        Notification(observers[i], ConnectStatusChanged(after)) in StatusNotifications(observers, before, after)
  {
  }

  /** Reporting the same status twice notifies once; a changed disconnect flag alone notifies nobody. */
  lemma RepeatedStatusNotifiesOnce(observers: seq<ObserverId>, before: ConnectStatus, s: ConnectStatus, a: DisconnectFlag, b: DisconnectFlag)
    ensures StatusNotifications(observers, before, s) + StatusNotifications(observers, s, s)
         == StatusNotifications(observers, before, s)
    ensures StatusNotifications(observers, Disconnected(a), Disconnected(b)) == []
  {
  }

  /** The observer list with every registration of `o` removed, the others kept in order. */
  function Without(observers: seq<ObserverId>, o: ObserverId): (r: seq<ObserverId>)
    ensures forall x :: x in r <==> x in observers && x != o
    ensures |r| <= |observers|
    ensures o !in observers ==> r == observers
    decreases |observers|
  {
    if |observers| == 0 then []
    else (if observers[0] == o then [] else [observers[0]]) + Without(observers[1..], o)
  }

  /** Removing an observer takes back its registration: adding then removing `o` is removing `o`. */
  lemma {:induction false} AddThenRemove(observers: seq<ObserverId>, o: ObserverId)
    ensures Without(observers + [o], o) == Without(observers, o)
    decreases |observers|
  {
    if |observers| == 0 {
      assert Without([o], o) == [] + Without([], o);
    } else {
      assert (observers + [o])[1..] == observers[1..] + [o];
      AddThenRemove(observers[1..], o);
    }
  }

  /** `BluetoothTaskQueue` events, as `process(event:error:)` receives them. */
  datatype TaskEvent =
    | GattInitialized
    | DidWriteCharacteristic(written: Radio.NativeCharacteristic)
    | DidUpdateCharacteristicNotificationState(updated: Radio.NativeCharacteristic)
    | DidReadCharacteristic(read: Radio.NativeCharacteristic, data: seq<Byte>)
    | DidReadRssiValue(rssi: int)

  /** The tasks the session creates and pushes on its queue. */
  datatype Task =
    | InitializeTask(profile: Profile)
    | WriteTask(target: Characteristic, value: seq<Byte>, writeType: WriteType, maximumWriteLength: int)
    | ReadTask(source: Characteristic)
    | SetNotifyTask(subject: Characteristic, notify: bool, sink: SinkId)
    | ReadRssiTask(interval: real)

  /** The result a set-notify task hands to its callback: the characteristic's new notifying state, or an error. */
  datatype NotifyStateResult = NotifyStateChanged(notifying: bool) | NotifyStateFailed(error: GattError)

  /** A listener closure installed by `listenTo`; it feeds `sink`. */
  datatype Listener = Listener(sink: SinkId)

  /** A call into a collaborator whose code is not part of this model. */
  datatype Call =
    | Push(task: Task)                    // taskQueue.push
    | Execute                             // taskQueue.execute
    | Process(event: TaskEvent, error: Option<TaskError>)   // taskQueue.process
    | ResetAfterDisconnected              // taskQueue.resetAfterDisconnected
    | StartTimeoutMonitor                 // connectionTimeoutMonitor.start...
    | CancelTimeoutMonitor                // connectionTimeoutMonitor.cancel...
    | DiscoverCharacteristics(service: Radio.NativeService)  // peripheral.discoverCharacteristics(nil, for:)
    | ReportConnectionTimeout             // BLECentralManager.shared.gattConnectTimeout
    | CombinerReceive(sink: SinkId, payload: seq<Byte>)      // a listener passing a fragment to the combiner
    | DeliverNotifyFailure(sink: SinkId, notifyError: GattError)   // a listener passing an error on
    | CompleteSetNotify(result: NotifyStateResult)          // the caller's completion of `listenTo`
    | ScheduleRssiRead(interval: real)    // the delayed re-run of `readRssi`

  const InitialFailure := Process(GattInitialized, Some(Gatt(GattInitialFailed)))

  /** The first reported service whose UUID equals `uuid` ignoring case, by direct recursion. */
  function FindIgnoringCase(rs: seq<Radio.NativeService>, uuid: Radio.Uuid): Option<Radio.NativeService>
    decreases |rs|
  {
    if |rs| == 0 then None
    else if SameIgnoringCase(rs[0].uuid, uuid) then Some(rs[0])
    else FindIgnoringCase(rs[1..], uuid)
  }

  /** The recursion is `first(where:)` with the case-insensitive UUID test. */
  lemma {:induction false} FindIgnoringCaseIsFirstWhere(rs: seq<Radio.NativeService>, uuid: Radio.Uuid)
    ensures FindIgnoringCase(rs, uuid) == FirstWhere(rs, (n: Radio.NativeService) => SameIgnoringCase(n.uuid, uuid))
    decreases |rs|
  {
    if |rs| > 0 {
      FindIgnoringCaseIsFirstWhere(rs[1..], uuid);
    }
  }

  /** The reported service that matches a declared UUID, ignoring case (`peripheral.services?.first(where:)`). */
  function MatchReportedService(reported: Option<seq<Radio.NativeService>>, uuid: Radio.Uuid): Option<Radio.NativeService> {
    match reported
    case None => None
    case Some(rs) => FindIgnoringCase(rs, uuid)
  }

  /** A reported service matches when some reported service has the declared UUID up to case. */
  lemma MatchReportedServiceSpec(reported: Option<seq<Radio.NativeService>>, uuid: Radio.Uuid)
    ensures MatchReportedService(reported, uuid).Some? <==>
      reported.Some? && exists i :: 0 <= i < |reported.value| && SameIgnoringCase(reported.value[i].uuid, uuid)
    ensures MatchReportedService(reported, uuid).Some? ==>
      MatchReportedService(reported, uuid).value in reported.value &&
      SameIgnoringCase(MatchReportedService(reported, uuid).value.uuid, uuid)
  {
    if reported.Some? {
      var rs := reported.value;
      var p := (n: Radio.NativeService) => SameIgnoringCase(n.uuid, uuid);
      FindIgnoringCaseIsFirstWhere(rs, uuid);
      if FirstWhere(rs, p).Some? {
        FirstWhereFound(rs, p);
      }
    }
  }

  /** Matching is case-insensitive: declared UUIDs that differ only in case find the same service. */
  lemma MatchReportedServiceIgnoresCase(reported: Option<seq<Radio.NativeService>>, u: Radio.Uuid, v: Radio.Uuid)
    requires SameIgnoringCase(u, v)
    ensures MatchReportedService(reported, u) == MatchReportedService(reported, v)
  {
    if reported.Some? {
      FindIgnoringCaseIsFirstWhere(reported.value, u);
      FindIgnoringCaseIsFirstWhere(reported.value, v);
      FirstWhereAgree(reported.value,
        (n: Radio.NativeService) => SameIgnoringCase(n.uuid, u),
        (n: Radio.NativeService) => SameIgnoringCase(n.uuid, v));
    }
  }

  /** A declared service's handle after the services-discovered callback. */
  function ServiceHandleAfter(reported: Option<seq<Radio.NativeService>>, s: Service, prior: Option<Radio.NativeService>): Option<Radio.NativeService> {
    match MatchReportedService(reported, s.uuid)
    case Some(n) => Some(n)
    case None => prior
  }

  /** The calls made for one declared service: characteristic discovery when matched, a failure otherwise. */
  function ServiceDiscoveryStep(reported: Option<seq<Radio.NativeService>>, s: Service): seq<Call> {
    match MatchReportedService(reported, s.uuid)
    case Some(n) => [DiscoverCharacteristics(n)]
    case None => [InitialFailure]
  }

  /** The calls made by the services-discovered callback, one step per declared service in order. */
  function ServiceDiscoveryCalls(reported: Option<seq<Radio.NativeService>>, ss: seq<Service>): seq<Call>
    decreases |ss|
  {
    if |ss| == 0 then []
    else ServiceDiscoveryCalls(reported, ss[..|ss| - 1]) + ServiceDiscoveryStep(reported, ss[|ss| - 1])
  }

  /** Handling one more declared service appends its step to the calls. */
  lemma ServiceDiscoveryCallsExtend(reported: Option<seq<Radio.NativeService>>, ss: seq<Service>, i: nat)
    requires i < |ss|
    ensures ServiceDiscoveryCalls(reported, ss[..i + 1]) ==
      ServiceDiscoveryCalls(reported, ss[..i]) + ServiceDiscoveryStep(reported, ss[i])
  {
    assert ss[..i + 1][..i] == ss[..i];
  }

  /** How many initialize failures a call sequence reports. */
  function CountInitialFailures(cs: seq<Call>): nat
    decreases |cs|
  {
    if |cs| == 0 then 0
    else CountInitialFailures(cs[..|cs| - 1]) + (if cs[|cs| - 1] == InitialFailure then 1 else 0)
  }

  lemma {:induction false} CountInitialFailuresAppend(a: seq<Call>, b: seq<Call>)
    ensures CountInitialFailures(a + b) == CountInitialFailures(a) + CountInitialFailures(b)
    decreases |b|
  {
    if |b| > 0 {
      assert (a + b)[..|a + b| - 1] == a + b[..|b| - 1];
      CountInitialFailuresAppend(a, b[..|b| - 1]);
    } else {
      assert a + b == a;
    }
  }

  /** How many declared services have no reported counterpart. */
  function CountUnmatched(reported: Option<seq<Radio.NativeService>>, ss: seq<Service>): nat
    decreases |ss|
  {
    if |ss| == 0 then 0
    else CountUnmatched(reported, ss[..|ss| - 1]) + (if MatchReportedService(reported, ss[|ss| - 1].uuid).None? then 1 else 0)
  }

  /** Each unmatched declared service reports one initialize failure; matched ones report none. */
  lemma {:induction false} OneFailurePerMissingService(reported: Option<seq<Radio.NativeService>>, ss: seq<Service>)
    ensures CountInitialFailures(ServiceDiscoveryCalls(reported, ss)) == CountUnmatched(reported, ss)
    decreases |ss|
  {
    if |ss| > 0 {
      var init := ss[..|ss| - 1];
      OneFailurePerMissingService(reported, init);
      var step := ServiceDiscoveryStep(reported, ss[|ss| - 1]);
      CountInitialFailuresAppend(ServiceDiscoveryCalls(reported, init), step);
      assert CountInitialFailures(step) == CountInitialFailures(step[..0]) + (if step[0] == InitialFailure then 1 else 0);
    }
  }

  /** The declared service that a reported service belongs to, ignoring case (`gattProfile.services.first(where:)`). */
  function MatchDeclaredService(ss: seq<Service>, uuid: Radio.Uuid): Option<Service> {
    FirstWhere(ss, (s: Service) => SameIgnoringCase(s.uuid, uuid))
  }

  /** The reported characteristic that matches a declared UUID, ignoring case. */
  function MatchReportedCharacteristic(natives: seq<Radio.NativeCharacteristic>, uuid: Radio.Uuid): Option<Radio.NativeCharacteristic> {
    FirstWhere(natives, (n: Radio.NativeCharacteristic) => SameIgnoringCase(n.uuid, uuid))
  }

  /** A declared characteristic's handle after resolving the characteristics of the declared service `scope` against `natives`. */
  function ResolvedHandle(scope: Radio.Uuid, natives: seq<Radio.NativeCharacteristic>, c: Characteristic,
                          prior: Option<Radio.NativeCharacteristic>): Option<Radio.NativeCharacteristic> {
    if SameIgnoringCase(c.service.uuid, scope) then
      match MatchReportedCharacteristic(natives, c.uuid)
      case Some(n) => Some(n)
      case None => prior
    else prior
  }

  /** A declared characteristic's handle after the characteristics-discovered callback for `service`. */
  function CharacteristicHandleAfter(ss: seq<Service>, service: Radio.NativeService, c: Characteristic,
                                     prior: Option<Radio.NativeCharacteristic>): Option<Radio.NativeCharacteristic> {
    match MatchDeclaredService(ss, service.uuid)
    case Some(m) => ResolvedHandle(m.uuid, service.characteristics.GetOr([]), c, prior)
    case None => prior
  }

  /** Discovery is scoped to the service: a characteristic of another service keeps its handle. */
  lemma CharacteristicScopedToService(ss: seq<Service>, service: Radio.NativeService, c: Characteristic,
                                      prior: Option<Radio.NativeCharacteristic>)
    requires forall s :: s in ss ==> !SameIgnoringCase(s.uuid, service.uuid) || !SameIgnoringCase(s.uuid, c.service.uuid)
    ensures CharacteristicHandleAfter(ss, service, c, prior) == prior
  {
    var m := MatchDeclaredService(ss, service.uuid);
    if m.Some? {
      FirstWhereFound(ss, (s: Service) => SameIgnoringCase(s.uuid, service.uuid));
      SameIgnoringCaseIsEquivalence(c.service.uuid, m.value.uuid, service.uuid);
    }
  }

  /** The declared characteristic a value update is for: exact `CBUUID` equality. */
  function DeclaredFor(cs: seq<Characteristic>, n: Radio.NativeCharacteristic): Option<Characteristic> {
    FirstWhere(cs, (c: Characteristic) => c.uuid == n.uuid)
  }

  /** The read part of routing a value update: the task queue hears of the value. */
  function ReadRoute(d: Characteristic, n: Radio.NativeCharacteristic, error: Option<string>): seq<Call>
    requires n.value.Some?
  {
    if d.kind.Contains(Read) then [Process(DidReadCharacteristic(n, n.value.value), PlatformError(error))] else []
  }

  /** The notify part of routing a value update: the listener for the UUID, if any, gets the error or the data. */
  function NotifyRoute(d: Characteristic, listeners: map<Radio.Uuid, Listener>, n: Radio.NativeCharacteristic,
                       error: Option<string>): seq<Call> {
    if d.kind.Contains(Notify) && n.uuid in listeners then
      var sink := listeners[n.uuid].sink;
      if error.Some? then [DeliverNotifyFailure(sink, GattNotifyFailed(Some(error.value)))]
      else if n.value.Some? then [CombinerReceive(sink, n.value.value)]
      else []
    else []
  }

  /**
   * The calls made by `didUpdateValueFor`: nothing for an undeclared UUID;
   * for a read-capable characteristic without a value, nothing at all (the
   * guard returns before the notify part); otherwise the read part then the
   * notify part.
   */
  function ValueUpdateCalls(cs: seq<Characteristic>, listeners: map<Radio.Uuid, Listener>,
                            n: Radio.NativeCharacteristic, error: Option<string>): seq<Call> {
    match DeclaredFor(cs, n)
    case None => []
    case Some(d) =>
      if d.kind.Contains(Read) && n.value.None? then []
      else (if n.value.Some? then ReadRoute(d, n, error) else []) + NotifyRoute(d, listeners, n, error)
  }

  /** An update for an undeclared UUID is ignored. */
  lemma UndeclaredUpdateIgnored(cs: seq<Characteristic>, listeners: map<Radio.Uuid, Listener>,
                                n: Radio.NativeCharacteristic, error: Option<string>)
    requires forall i :: 0 <= i < |cs| ==> cs[i].uuid != n.uuid
    ensures ValueUpdateCalls(cs, listeners, n, error) == []
  {
  }

  /**
   * A value for a read-capable characteristic goes to the task queue first,
   * with the platform error if any; the notify part follows for a
   * characteristic that also notifies and has a listener.
   */
  lemma ReadValueGoesToQueue(cs: seq<Characteristic>, listeners: map<Radio.Uuid, Listener>,
                             n: Radio.NativeCharacteristic, error: Option<string>)
    requires DeclaredFor(cs, n).Some? && DeclaredFor(cs, n).value.kind.Contains(Read) && n.value.Some?
    ensures var r := ValueUpdateCalls(cs, listeners, n, error);
      var read := Process(DidReadCharacteristic(n, n.value.value), PlatformError(error));
      var notifies := DeclaredFor(cs, n).value.kind.Contains(Notify) && n.uuid in listeners;
      (notifies && error.Some? ==> r == [read, DeliverNotifyFailure(listeners[n.uuid].sink, GattNotifyFailed(error))]) &&
      (notifies && error.None? ==> r == [read, CombinerReceive(listeners[n.uuid].sink, n.value.value)]) &&
      (!notifies ==> r == [read])
  {
  }

  /**
   * An update without a value for a read-capable characteristic makes no
   * call at all, even when it also notifies and has a listener: the read
   * guard returns before the notify part, so no `gattNotifyFailed` is
   * delivered for the error.
   */
  lemma ReadWithoutValueDeliversNothing(cs: seq<Characteristic>, listeners: map<Radio.Uuid, Listener>,
                                        n: Radio.NativeCharacteristic, error: Option<string>)
    requires DeclaredFor(cs, n).Some? && DeclaredFor(cs, n).value.kind.Contains(Read) && n.value.None?
    ensures ValueUpdateCalls(cs, listeners, n, error) == []
  {
  }

  /** A declared characteristic that neither reads nor notifies makes no call. */
  lemma UnroutedKindIgnored(cs: seq<Characteristic>, listeners: map<Radio.Uuid, Listener>,
                            n: Radio.NativeCharacteristic, error: Option<string>)
    requires DeclaredFor(cs, n).Some?
    requires var d := DeclaredFor(cs, n).value; !d.kind.Contains(Read) && !d.kind.Contains(Notify)
    ensures ValueUpdateCalls(cs, listeners, n, error) == []
  {
  }

  /**
   * For a notify-only characteristic: with a listener installed, an error
   * wins over data; without one, nothing is delivered.
   */
  lemma NotifyErrorWinsOverData(cs: seq<Characteristic>, listeners: map<Radio.Uuid, Listener>,
                                n: Radio.NativeCharacteristic, error: Option<string>)
    requires DeclaredFor(cs, n).Some?
    requires var d := DeclaredFor(cs, n).value; d.kind.Contains(Notify) && !d.kind.Contains(Read)
    ensures n.uuid in listeners && error.Some? ==>
      ValueUpdateCalls(cs, listeners, n, error) == [DeliverNotifyFailure(listeners[n.uuid].sink, GattNotifyFailed(error))]
    ensures n.uuid in listeners && error.None? && n.value.Some? ==>
      ValueUpdateCalls(cs, listeners, n, error) == [CombinerReceive(listeners[n.uuid].sink, n.value.value)]
    ensures n.uuid !in listeners ==> ValueUpdateCalls(cs, listeners, n, error) == []
  {
  }

  /** The listener table after a set-notify task reports `result` for `uuid`. */
  function ListenersAfter(listeners: map<Radio.Uuid, Listener>, uuid: Radio.Uuid, sink: SinkId,
                          result: NotifyStateResult): map<Radio.Uuid, Listener> {
    match result
    case NotifyStateChanged(true) => listeners[uuid := Listener(sink)]
    case NotifyStateChanged(false) => listeners - {uuid}
    case NotifyStateFailed(_) => listeners
  }

  /**
   * Enabling installs a listener for the UUID, disabling removes it, a
   * failure leaves the table alone; no other UUID is touched, and applying
   * the same result twice is the same as once.
   */
  lemma ListenersAfterSpec(listeners: map<Radio.Uuid, Listener>, uuid: Radio.Uuid, sink: SinkId, result: NotifyStateResult)
    ensures result == NotifyStateChanged(true) ==>
      uuid in ListenersAfter(listeners, uuid, sink, result) && ListenersAfter(listeners, uuid, sink, result)[uuid] == Listener(sink)
    ensures result == NotifyStateChanged(false) ==> uuid !in ListenersAfter(listeners, uuid, sink, result)
    ensures result.NotifyStateFailed? ==> ListenersAfter(listeners, uuid, sink, result) == listeners
    ensures forall k :: k != uuid ==>
      (k in ListenersAfter(listeners, uuid, sink, result) <==> k in listeners) &&
      (k in listeners ==> ListenersAfter(listeners, uuid, sink, result)[k] == listeners[k])
    ensures ListenersAfter(ListenersAfter(listeners, uuid, sink, result), uuid, sink, result)
         == ListenersAfter(listeners, uuid, sink, result)
  {
  }

  class BluetoothGatt {
    var localName: Option<string>
    var autoReconnect: bool
    var connectPriority: ConnectPriority
    const deviceId: Option<string>
    var peripheral: Option<Radio.NativePeripheral>
    var disconnectFlag: DisconnectFlag
    var connectStatus: ConnectStatus
    /** `gattProfile`, built once from `setupGattProfile()`. */
    const profile: Profile
    /** `maximumWritePayloadLength()` of the concrete peripheral type. */
    const maximumWriteLength: int
    /** The live observers, in registration order. */
    var observers: seq<ObserverId>
    var deviceInitialized: bool
    var initializeStatus: InitializeState
    var listeners: map<Radio.Uuid, Listener>
    /** Every call made on an observer, in order. */
    var notifications: seq<Notification<Event>>
    /** Every call made on a collaborator, in order. */
    ghost var calls: seq<Call>

    /** The state every initializer starts from. */
    ghost predicate Fresh()
      reads this
    {
      autoReconnect && connectPriority == Required && disconnectFlag == NoReason &&
      connectStatus == Disconnected(NoReason) && observers == [] && !deviceInitialized &&
      initializeStatus == NotStarted && listeners == map[] && notifications == [] && calls == []
    }

    /** `init(with discovery:)`, for a concrete peripheral type declaring `declared` and `maximumWriteLength`. */
    constructor FromDiscovery(deviceId: Option<string>, peripheral: Radio.NativePeripheral, localName: string,
                              declared: seq<Characteristic>, maximumWriteLength: int)
      ensures this.deviceId == deviceId && this.peripheral == Some(peripheral) && this.localName == Some(localName)
      ensures profile == NewProfile(declared) && this.maximumWriteLength == maximumWriteLength
      ensures Fresh()
    {
      this.deviceId := deviceId;
      this.peripheral := Some(peripheral);
      this.localName := Some(localName);
      profile := NewProfile(declared);
      this.maximumWriteLength := maximumWriteLength;
      autoReconnect, connectPriority, disconnectFlag, connectStatus := true, Required, NoReason, Disconnected(NoReason);
      observers, deviceInitialized, initializeStatus, listeners := [], false, NotStarted, map[];
      notifications, calls := [], [];
    }

    /** `init(with deviceId:)`: no peripheral yet. */
    constructor FromDeviceId(deviceId: string, declared: seq<Characteristic>, maximumWriteLength: int)
      ensures this.deviceId == Some(deviceId) && peripheral == None && localName == None
      ensures profile == NewProfile(declared) && this.maximumWriteLength == maximumWriteLength
      ensures Fresh()
    {
      this.deviceId := Some(deviceId);
      peripheral := None;
      localName := None;
      profile := NewProfile(declared);
      this.maximumWriteLength := maximumWriteLength;
      autoReconnect, connectPriority, disconnectFlag, connectStatus := true, Required, NoReason, Disconnected(NoReason);
      observers, deviceInitialized, initializeStatus, listeners := [], false, NotStarted, map[];
      notifications, calls := [], [];
    }

    /** `init(with peripheral:)`: the device identifier is the peripheral's. */
    constructor FromPeripheral(peripheral: Radio.NativePeripheral, declared: seq<Characteristic>, maximumWriteLength: int)
      ensures deviceId == Some(peripheral.identifier) && this.peripheral == Some(peripheral) && localName == None
      ensures profile == NewProfile(declared) && this.maximumWriteLength == maximumWriteLength
      ensures Fresh()
    {
      deviceId := Some(peripheral.identifier);
      this.peripheral := Some(peripheral);
      localName := None;
      profile := NewProfile(declared);
      this.maximumWriteLength := maximumWriteLength;
      autoReconnect, connectPriority, disconnectFlag, connectStatus := true, Required, NoReason, Disconnected(NoReason);
      observers, deviceInitialized, initializeStatus, listeners := [], false, NotStarted, map[];
      notifications, calls := [], [];
    }

    /** `getDeviceId()`: the stored identifier, else the peripheral's. */
    function GetDeviceId(): (r: Option<string>)
      reads this
      ensures deviceId.Some? ==> r == deviceId
      ensures deviceId.None? && peripheral.Some? ==> r == Some(peripheral.value.identifier)
      ensures r.None? <==> deviceId.None? && peripheral.None?
    {
      if deviceId.Some? then deviceId
      else if peripheral.Some? then Some(peripheral.value.identifier)
      else None
    }

    /** `isReadyToInitiate`: every declared service and every declared characteristic has a handle. */
    function IsReadyToInitiate(): bool
      reads profile.services, profile.characteristics
    {
      ProfileResolved(profile)
    }

    /** Calls `event` on every observer, in order (`bluetoothGattDelegates.forEach`). */
    method NotifyObservers(event: Event)
      modifies this`notifications
      ensures notifications == old(notifications) + Broadcast(observers, event)
    {
      var i := 0;
      while i < |observers|
        invariant 0 <= i <= |observers|
        invariant notifications == old(notifications) + Broadcast(observers[..i], event)
      {
        notifications := notifications + [Notification(observers[i], event)];
        i := i + 1;
        assert Broadcast(observers[..i], event) == Broadcast(observers[..i - 1], event) + [Notification(observers[i - 1], event)];
      }
      assert observers[..i] == observers;
    }

    /** Assigning `connectStatus`: observers hear of it only when the status changes. */
    method SetConnectStatus(status: ConnectStatus)
      modifies this`connectStatus, this`notifications
      ensures connectStatus == status
      ensures notifications == old(notifications) + StatusNotifications(observers, old(connectStatus), status)
    {
      var previous := connectStatus;
      connectStatus := status;
      if !SameStatus(status, previous) {
        NotifyObservers(ConnectStatusChanged(status));
      }
    }

    /** Assigning `initializeStatus`: its `willSet` tells every observer, changed or not. */
    method SetInitializeStatus(state: InitializeState)
      modifies this`initializeStatus, this`notifications
      ensures initializeStatus == state
      ensures notifications == old(notifications) + Broadcast(observers, InitializeStateChanged(state))
    {
      NotifyObservers(InitializeStateChanged(state));
      initializeStatus := state;
    }

    /** `addBluetoothGattDelegate(_:readBuffer:)` */
    method AddObserver(observer: ObserverId, readBuffer: bool)
      modifies this`observers, this`notifications
      ensures observers == old(observers) + [observer]
      ensures notifications == old(notifications) +
        (if readBuffer then [Notification(observer, ConnectStatusChanged(connectStatus))] else [])
    {
      observers := observers + [observer];
      if readBuffer {
        notifications := notifications + [Notification(observer, ConnectStatusChanged(connectStatus))];
      }
    }

    /** `removeBluetoothGattDelegate(_:)` */
    method RemoveObserver(observer: ObserverId)
      modifies this`observers
      ensures observers == Without(old(observers), observer)
    {
      observers := Without(observers, observer);
    }

    /** `writeData(_:characteristic:completion:)` */
    method WriteData(data: seq<Byte>, characteristic: Characteristic) returns (submission: Submission)
      modifies this`calls
      ensures peripheral.None? ==> submission == Rejected(GattDisconnected) && calls == old(calls)
      ensures peripheral.Some? && SelectWriteType(characteristic).Failure? ==>
        submission == Rejected(SelectWriteType(characteristic).error) && calls == old(calls)
      ensures peripheral.Some? && SelectWriteType(characteristic).Success? ==>
        submission == Queued &&
        calls == old(calls) + [Push(WriteTask(characteristic, data, SelectWriteType(characteristic).value, maximumWriteLength)), Execute]
    {
      if peripheral.None? {
        return Rejected(GattDisconnected);
      }
      var writeType: WriteType;
      if characteristic.kind.Contains(WriteWithResponse) {
        writeType := WithResponse;
      } else if characteristic.kind.Contains(WriteWithoutResponse) {
        writeType := WithoutResponse;
      } else {
        return Rejected(WriteNotSupport(characteristic.uuid));
      }
      calls := calls + [Push(WriteTask(characteristic, data, writeType, maximumWriteLength)), Execute];
      submission := Queued;
    }

    /** `readData(characteristic:completion:)` */
    method ReadData(characteristic: Characteristic) returns (submission: Submission)
      modifies this`calls
      ensures peripheral.None? ==> submission == Rejected(GattDisconnected) && calls == old(calls)
      ensures peripheral.Some? ==> submission == Queued && calls == old(calls) + [Push(ReadTask(characteristic)), Execute]
    {
      if peripheral.None? {
        return Rejected(GattDisconnected);
      }
      calls := calls + [Push(ReadTask(characteristic)), Execute];
      submission := Queued;
    }

    /** `readRssi(interval:)`: queues a read only while the peripheral is connected. */
    method ReadRssi(interval: real)
      modifies this`calls
      ensures peripheral.Some? && peripheral.value.state == Radio.Connected ==>
        calls == old(calls) + [Push(ReadRssiTask(interval)), Execute]
      ensures !(peripheral.Some? && peripheral.value.state == Radio.Connected) ==> calls == old(calls)
    {
      if peripheral.None? || peripheral.value.state != Radio.Connected {
        return;
      }
      calls := calls + [Push(ReadRssiTask(interval)), Execute];
    }

    /** The callback of the RSSI task: observers hear a successful value, and the next read is scheduled either way. */
    method OnReadRssiResult(interval: real, rssi: Option<int>)
      modifies this`notifications, this`calls
      ensures notifications == old(notifications) + (if rssi.Some? then Broadcast(observers, RssiRead(rssi.value)) else [])
      ensures calls == old(calls) + [ScheduleRssiRead(interval)]
    {
      if rssi.Some? {
        NotifyObservers(RssiRead(rssi.value));
      }
      calls := calls + [ScheduleRssiRead(interval)];
    }

    /** `listenTo(characteristic:notify:completion:notifyDataCallback:)` */
    method ListenTo(characteristic: Characteristic, notify: bool, sink: SinkId) returns (submission: Submission)
      modifies this`calls
      ensures peripheral.None? ==> submission == Rejected(GattDisconnected) && calls == old(calls)
      ensures peripheral.Some? ==>
        submission == Queued && calls == old(calls) + [Push(SetNotifyTask(characteristic, notify, sink)), Execute]
    {
      if peripheral.None? {
        return Rejected(GattDisconnected);
      }
      calls := calls + [Push(SetNotifyTask(characteristic, notify, sink)), Execute];
      submission := Queued;
    }

    /** The callback of the set-notify task: updates the listener table, then calls the completion with the result. */
    method OnSetNotifyResult(characteristic: Characteristic, sink: SinkId, result: NotifyStateResult)
      modifies this`listeners, this`calls
      ensures listeners == ListenersAfter(old(listeners), characteristic.uuid, sink, result)
      ensures calls == old(calls) + [CompleteSetNotify(result)]
    {
      if result.NotifyStateChanged? {
        if result.notifying {
          listeners := listeners[characteristic.uuid := Listener(sink)];
        } else {
          listeners := listeners - {characteristic.uuid};
        }
      }
      calls := calls + [CompleteSetNotify(result)];
    }

    /** `initiateDevice()`: tells the queue once that the profile is initialized. */
    method InitiateDevice()
      modifies this`calls, this`deviceInitialized
      ensures deviceInitialized
      ensures calls == old(calls) + (if old(deviceInitialized) then [] else [Process(GattInitialized, None)])
    {
      if deviceInitialized {
        return;
      }
      calls := calls + [Process(GattInitialized, None)];
      deviceInitialized := true;
    }

    /** `onGattConnecting()` */
    method OnGattConnecting()
      modifies this`connectStatus, this`notifications, this`calls
      ensures connectStatus == Connecting
      ensures notifications == old(notifications) + StatusNotifications(observers, old(connectStatus), Connecting)
      ensures calls == old(calls) + [StartTimeoutMonitor]
    {
      SetConnectStatus(Connecting);
      calls := calls + [StartTimeoutMonitor];
    }

    /** `onGattConnected()`: discovery starts only for a session not yet initialized. */
    method OnGattConnected()
      modifies this`connectStatus, this`notifications, this`calls, this`initializeStatus
      ensures connectStatus == Connected
      ensures old(deviceInitialized) ==>
        initializeStatus == old(initializeStatus) &&
        calls == old(calls) + [CancelTimeoutMonitor] &&
        notifications == old(notifications) + StatusNotifications(observers, old(connectStatus), Connected)
      ensures !old(deviceInitialized) ==>
        initializeStatus == (if peripheral.Some? then Initializing else Failed) &&
        calls == old(calls) + [CancelTimeoutMonitor] + (if peripheral.Some? then [Push(InitializeTask(profile)), Execute] else []) &&
        notifications == old(notifications) + StatusNotifications(observers, old(connectStatus), Connected)
                         + Broadcast(observers, InitializeStateChanged(initializeStatus))
    {
      calls := calls + [CancelTimeoutMonitor];
      SetConnectStatus(Connected);
      if !deviceInitialized {
        DiscoverService();
      }
    }

    /** `onGattDisconnecting()` */
    method OnGattDisconnecting()
      modifies this`connectStatus, this`notifications
      ensures connectStatus == Disconnecting
      ensures notifications == old(notifications) + StatusNotifications(observers, old(connectStatus), Disconnecting)
    {
      SetConnectStatus(Disconnecting);
    }

    /** `onGattDisconnected(flag:)`: records the reason, resets the session and decides on reconnecting. */
    method OnGattDisconnected(flag: DisconnectFlag)
      modifies this`connectStatus, this`notifications, this`disconnectFlag, this`autoReconnect, this`deviceInitialized,
               this`calls, profile.services, profile.characteristics
      ensures connectStatus == Disconnected(flag) && disconnectFlag == flag
      ensures autoReconnect == AutoReconnectFor(flag)
      ensures !deviceInitialized
      ensures forall s :: s in profile.services ==> s.handle.None?
      ensures forall c :: c in profile.characteristics ==> c.handle.None?
      ensures notifications == old(notifications) + StatusNotifications(observers, old(connectStatus), Disconnected(flag))
      ensures calls == old(calls) + [CancelTimeoutMonitor, ResetAfterDisconnected]
    {
      calls := calls + [CancelTimeoutMonitor];
      SetConnectStatus(Disconnected(flag));
      disconnectFlag := flag;
      ResetDevice();
      match flag
      case ByUser => autoReconnect := false;
      case BySystem => autoReconnect := true;
      case PoweredOff => autoReconnect := true;
      case Unpair => autoReconnect := false;
      case NoReason => autoReconnect := false;
      case Timeout => autoReconnect := false;
    }

    /** `onGattConnectionTimeout()`: tells the central manager. */
    method OnGattConnectionTimeout()
      modifies this`calls
      ensures calls == old(calls) + [ReportConnectionTimeout]
    {
      calls := calls + [ReportConnectionTimeout];
    }

    /** `discoverService()`: without a peripheral initialization fails and nothing is queued. */
    method DiscoverService()
      modifies this`initializeStatus, this`notifications, this`calls
      ensures peripheral.None? ==> initializeStatus == Failed && calls == old(calls)
      ensures peripheral.Some? ==> initializeStatus == Initializing && calls == old(calls) + [Push(InitializeTask(profile)), Execute]
      ensures notifications == old(notifications) + Broadcast(observers, InitializeStateChanged(initializeStatus))
    {
      if peripheral.None? {
        SetInitializeStatus(Failed);
        return;
      }
      SetInitializeStatus(Initializing);
      calls := calls + [Push(InitializeTask(profile)), Execute];
    }

    /** The callback of the initialize task. */
    method OnInitializeResult(succeeded: bool)
      modifies this`initializeStatus, this`notifications
      ensures initializeStatus == (if succeeded then Initialized else Failed)
      ensures notifications == old(notifications) + Broadcast(observers, InitializeStateChanged(initializeStatus))
    {
      if succeeded {
        SetInitializeStatus(Initialized);
      } else {
        SetInitializeStatus(Failed);
      }
    }

    /** `resetDevice()`: clears every handle, flushes the queue and forgets the initialization; nothing else changes. */
    method ResetDevice()
      modifies profile.services, profile.characteristics, this`calls, this`deviceInitialized
      ensures forall s :: s in profile.services ==> s.handle.None?
      ensures forall c :: c in profile.characteristics ==> c.handle.None?
      ensures calls == old(calls) + [ResetAfterDisconnected]
      ensures !deviceInitialized
    {
      var i := 0;
      while i < |profile.services|
        modifies profile.services
        invariant 0 <= i <= |profile.services|
        invariant forall k :: 0 <= k < i ==> profile.services[k].handle.None?
      {
        profile.services[i].handle := None;
        i := i + 1;
      }
      var j := 0;
      while j < |profile.characteristics|
        modifies profile.characteristics
        invariant 0 <= j <= |profile.characteristics|
        invariant forall k :: 0 <= k < j ==> profile.characteristics[k].handle.None?
      {
        profile.characteristics[j].handle := None;
        j := j + 1;
      }
      calls := calls + [ResetAfterDisconnected];
      deviceInitialized := false;
    }

    /** `peripheral(_:didDiscoverServices:)`: resolves each declared service against the reported ones. */
    method DidDiscoverServices(reported: Option<seq<Radio.NativeService>>)
      modifies profile.services, this`calls
      ensures forall s :: s in profile.services ==> s.handle == ServiceHandleAfter(reported, s, old(s.handle))
      ensures calls == old(calls) + ServiceDiscoveryCalls(reported, profile.services)
    {
      ghost var made := ResolveServices(profile.services, reported);
      calls := calls + made;
    }

    /** The loop of the services-discovered callback over the declared services `ss`; `made` is the calls it makes, in order. */
    method ResolveServices(ss: seq<Service>, reported: Option<seq<Radio.NativeService>>) returns (ghost made: seq<Call>)
      modifies ss
      ensures forall s :: s in ss ==> s.handle == ServiceHandleAfter(reported, s, old(s.handle))
      ensures made == ServiceDiscoveryCalls(reported, ss)
    {
      made := [];
      ghost var done: set<Service> := {};
      var i := 0;
      while i < |ss|
        modifies ss
        invariant 0 <= i <= |ss|
        invariant done == set k | 0 <= k < i :: ss[k]
        invariant forall s :: s in ss ==>
          s.handle == (if s in done then ServiceHandleAfter(reported, s, old(s.handle)) else old(s.handle))
        invariant made == ServiceDiscoveryCalls(reported, ss[..i])
      {
        var s := ss[i];
        ServiceDiscoveryCallsExtend(reported, ss, i);
        ghost var step := ResolveService(s, reported);
        made := made + step;
        done := done + {s};
        i := i + 1;
      }
      assert ss[..i] == ss;
    }

    /** The loop body of the services-discovered callback for one declared service; `step` is the call it makes. */
    method ResolveService(s: Service, reported: Option<seq<Radio.NativeService>>) returns (ghost step: seq<Call>)
      modifies s
      ensures s.handle == ServiceHandleAfter(reported, s, old(s.handle))
      ensures step == ServiceDiscoveryStep(reported, s)
    {
      var matched := MatchReportedService(reported, s.uuid);
      if matched.Some? {
        s.handle := matched;
        step := [DiscoverCharacteristics(matched.value)];
      } else {
        step := [InitialFailure];
      }
    }

    /**
     * `peripheral(_:didDiscoverCharacteristicsFor:error:)`: resolves the
     * declared characteristics of the matching declared service, reports a
     * failure if any of them is still unresolved, then initiates the device
     * once everything is resolved.
     */
    method DidDiscoverCharacteristics(service: Radio.NativeService)
      modifies profile.characteristics, this`calls, this`deviceInitialized
      ensures forall c :: c in profile.characteristics ==>
        c.handle == CharacteristicHandleAfter(profile.services, service, c, old(c.handle))
      ensures var m := MatchDeclaredService(profile.services, service.uuid);
        calls == old(calls)
          + (if m.Some? && |UnresolvedOfService(profile.characteristics, m.value.uuid)| != 0 then [InitialFailure] else [])
          + (if IsReadyToInitiate() && !old(deviceInitialized) then [Process(GattInitialized, None)] else [])
      ensures deviceInitialized == (old(deviceInitialized) || IsReadyToInitiate())
    {
      ResolveDiscoveredService(service);
      if IsReadyToInitiate() {
        InitiateDevice();
      }
    }

    /** The first half of the characteristics-discovered callback: resolve the matched service's characteristics, then report any left over. */
    method ResolveDiscoveredService(service: Radio.NativeService)
      modifies profile.characteristics, this`calls
      ensures forall c :: c in profile.characteristics ==>
        c.handle == CharacteristicHandleAfter(profile.services, service, c, old(c.handle))
      ensures var m := MatchDeclaredService(profile.services, service.uuid);
        calls == old(calls)
          + (if m.Some? && |UnresolvedOfService(profile.characteristics, m.value.uuid)| != 0 then [InitialFailure] else [])
    {
      var matched := MatchDeclaredService(profile.services, service.uuid);
      if matched.Some? {
        ResolveCharacteristics(matched.value.uuid, service.characteristics.GetOr([]));
        if |UnresolvedOfService(profile.characteristics, matched.value.uuid)| != 0 {
          calls := calls + [InitialFailure];
        }
      }
    }

    /** The matching loop of the characteristics-discovered callback: each declared characteristic of `scope` takes the reported one of its UUID. */
    method ResolveCharacteristics(scope: Radio.Uuid, natives: seq<Radio.NativeCharacteristic>)
      modifies profile.characteristics
      ensures forall c :: c in profile.characteristics ==> c.handle == ResolvedHandle(scope, natives, c, old(c.handle))
    {
      var cs := profile.characteristics;
      ghost var done: set<Characteristic> := {};
      var i := 0;
      while i < |cs|
        modifies cs
        invariant 0 <= i <= |cs|
        invariant done == set k | 0 <= k < i :: cs[k]
        invariant forall c :: c in cs ==>
          c.handle == (if c in done then ResolvedHandle(scope, natives, c, old(c.handle)) else old(c.handle))
      {
        var c := cs[i];
        if SameIgnoringCase(c.service.uuid, scope) {
          var hit := MatchReportedCharacteristic(natives, c.uuid);
          if hit.Some? {
            c.handle := hit;
          }
        }
        done := done + {c};
        i := i + 1;
      }
    }

    /** `peripheral(_:didWriteValueFor:error:)` */
    method DidWriteValue(characteristic: Radio.NativeCharacteristic, error: Option<string>)
      modifies this`calls
      ensures calls == old(calls) + [Process(DidWriteCharacteristic(characteristic), PlatformError(error))]
    {
      calls := calls + [Process(DidWriteCharacteristic(characteristic), PlatformError(error))];
    }

    /** `peripheral(_:didUpdateNotificationStateFor:error:)` */
    method DidUpdateNotificationState(characteristic: Radio.NativeCharacteristic, error: Option<string>)
      modifies this`calls
      ensures calls == old(calls) + [Process(DidUpdateCharacteristicNotificationState(characteristic), PlatformError(error))]
    {
      calls := calls + [Process(DidUpdateCharacteristicNotificationState(characteristic), PlatformError(error))];
    }

    /** `peripheral(_:didReadRSSI:error:)` */
    method DidReadRssi(rssi: int, error: Option<string>)
      modifies this`calls
      ensures calls == old(calls) + [Process(DidReadRssiValue(rssi), PlatformError(error))]
    {
      calls := calls + [Process(DidReadRssiValue(rssi), PlatformError(error))];
    }

    /** `peripheral(_:didUpdateValueFor:error:)`: routes a value to the task queue and to the listener. */
    method DidUpdateValue(characteristic: Radio.NativeCharacteristic, error: Option<string>)
      modifies this`calls
      ensures calls == old(calls) + ValueUpdateCalls(profile.characteristics, listeners, characteristic, error)
    {
      var declared := DeclaredFor(profile.characteristics, characteristic);
      if declared.None? {
        return;
      }
      var d := declared.value;
      if d.kind.Contains(Read) {
        if characteristic.value.None? {
          return;
        }
        calls := calls + [Process(DidReadCharacteristic(characteristic, characteristic.value.value), PlatformError(error))];
      }
      if d.kind.Contains(Notify) {
        if characteristic.uuid !in listeners {
          return;
        }
        var listener := listeners[characteristic.uuid];
        if error.Some? {
          calls := calls + [DeliverNotifyFailure(listener.sink, GattNotifyFailed(Some(error.value)))];
        } else if characteristic.value.Some? {
          calls := calls + [CombinerReceive(listener.sink, characteristic.value.value)];
        }
      }
    }
  }
}
