/**
 * Stand-ins for the CoreBluetooth objects the GATT session talks to. They
 * are reduced to what the session reads: identifiers (a `CBUUID` by its
 * `uuidString`), the peripheral's connection state, and attribute values.
 */
module Radio {
  import opened Foundation

  /** `CBUUID`, by its `uuidString`. */
  type Uuid = string

  /** `CBPeripheralState` */
  datatype PeripheralState = Disconnected | Connecting | Connected | Disconnecting

  /** `CBPeripheral`: owned and updated by the radio stack, only read by the session. */
  class NativePeripheral {
    const identifier: string
    var state: PeripheralState

    constructor (identifier: string, state: PeripheralState)
      ensures this.identifier == identifier && this.state == state
    {
      this.identifier := identifier;
      this.state := state;
    }
  }

  /** `CBCharacteristic`, as reported by the peripheral: its UUID and its current value. */
  datatype NativeCharacteristic = NativeCharacteristic(uuid: Uuid, value: Option<seq<Byte>>)

  /** `CBService`, as reported by the peripheral: its UUID and its discovered characteristics. */
  datatype NativeService = NativeService(uuid: Uuid, characteristics: Option<seq<NativeCharacteristic>>)
}
