/**
 * Value types shared by both builds of the GATT session: disconnect reasons,
 * the initialize state, GATT errors, write types and connect priority.
 */
module GattCommon {
  import opened Foundation

  /** `BluetoothGATTDisconnectFlag`; `NoReason` is the source's `.none`. */
  datatype DisconnectFlag = NoReason | ByUser | BySystem | PoweredOff | Unpair | Timeout

  /** `BluetoothGattInitializeState` */
  datatype InitializeState = NotStarted | Initializing | Initialized | Failed

  /** `BluetoothGATTConnectPriority` */
  datatype ConnectPriority = Required | DefaultHigh

  /** `BluetoothGATTError` */
  datatype GattError =
    | GattInitialFailed
    | GattDisconnected
    | GattWriteFailed(writeMsg: Option<string>)
    | GattReadFailed
    | GattNotifyFailed(notifyMsg: Option<string>)
    | WriteNotSupport(characteristicUuid: string)
    | BluetoothReadyFailed
    | BluetoothScanFailed

  /** The `Error?` handed to the task queue: a platform error (by its description) or a GATT error. */
  datatype TaskError = Platform(description: string) | Gatt(gattError: GattError)

  /** An optional platform error, as the task queue receives it. */
  function PlatformError(error: Option<string>): (r: Option<TaskError>)
    ensures r.None? <==> error.None?
    ensures error.Some? ==> r.value.Platform? && r.value.description == error.value
  {
    match error
    case None => None
    case Some(msg) => Some(Platform(msg))
  }

  /** `CBCharacteristicWriteType` */
  datatype WriteType = WithResponse | WithoutResponse

  /** The synchronous answer of a read, write or subscribe request: queued, or failed at once. */
  datatype Submission = Queued | Rejected(error: GattError)
}
