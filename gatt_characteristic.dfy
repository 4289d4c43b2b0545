/**
 * `BluetoothGATTCharacteristic`: a declared characteristic (UUID, capability
 * set, owning service) with a slot for the platform characteristic once
 * discovery resolves it; and `BluetoothGATTCharacteristicType`, the option
 * set of capabilities.
 */
module GattCharacteristic {
  import opened Foundation
  import opened GattCommon
  import Radio
  import opened GattService

  /** `BluetoothGATTCharacteristicType`, an `OptionSet` over the bit pattern of its `Int` raw value. */
  datatype CharacteristicType = CharacteristicType(rawValue: bv64) {
    /** `OptionSet.contains`: every bit of `member` is set. */
    predicate Contains(member: CharacteristicType) {
      rawValue & member.rawValue == member.rawValue
    }

    /** `OptionSet.union` */
    function Union(other: CharacteristicType): CharacteristicType {
      CharacteristicType(rawValue | other.rawValue)
    }
  }

  const WriteWithResponse := CharacteristicType(1 << 0)
  const WriteWithoutResponse := CharacteristicType(1 << 1)
  const Read := CharacteristicType(1 << 2)
  const Notify := CharacteristicType(1 << 3)

  /** One of the four declared capabilities. */
  predicate IsFlag(f: CharacteristicType) {
    f == WriteWithResponse || f == WriteWithoutResponse || f == Read || f == Notify
  }

  /** The capabilities have raw values 1, 2, 4 and 8. */
  lemma FlagRawValues()
    ensures WriteWithResponse.rawValue == 1 && WriteWithoutResponse.rawValue == 2
    ensures Read.rawValue == 4 && Notify.rawValue == 8
  {
  }

  /** Each capability is a single bit, and distinct capabilities share no bit. */
  lemma FlagsAreDisjointBits(f: CharacteristicType, g: CharacteristicType)
    requires IsFlag(f) && IsFlag(g)
    ensures f.rawValue != 0 && f.rawValue & (f.rawValue - 1) == 0
    ensures f != g ==> f.rawValue & g.rawValue == 0
  {
  }

  /** For a capability, `contains` holds exactly when its bit is set in the raw value. */
  lemma ContainsFlagIffBitSet(t: CharacteristicType, f: CharacteristicType)
    requires IsFlag(f)
    ensures t.Contains(f) <==> t.rawValue & f.rawValue != 0
  {
  }

  /** A union contains each of its members. */
  lemma UnionContainsMembers(a: CharacteristicType, b: CharacteristicType)
    ensures a.Union(b).Contains(a) && a.Union(b).Contains(b)
  {
  }

  /** A union of capabilities contains no capability outside it. */
  lemma UnionOfFlagsContainsOnlyMembers(a: CharacteristicType, b: CharacteristicType, f: CharacteristicType)
    requires IsFlag(a) && IsFlag(b) && IsFlag(f)
    ensures a.Union(b).Contains(f) <==> f == a || f == b
  {
  }

  class Characteristic {
    const uuid: Radio.Uuid
    /** The resolved `CBCharacteristic`, written by discovery and cleared on reset. */
    var handle: Option<Radio.NativeCharacteristic>
    const service: Service
    /** `type` in the source. */
    const kind: CharacteristicType

    constructor (uuid: Radio.Uuid, kind: CharacteristicType, service: Service)
      ensures this.uuid == uuid && this.kind == kind && this.service == service
      ensures handle == None
    {
      this.uuid := uuid;
      this.kind := kind;
      this.service := service;
      handle := None;
    }
  }

  /**
   * The write type chosen by `writeData`: with response whenever the
   * characteristic allows it, otherwise without response, otherwise
   * `writeNotSupport` naming the characteristic.
   */
  function SelectWriteType(c: Characteristic): (r: Result<WriteType, GattError>)
    ensures c.kind.Contains(WriteWithResponse) <==> r == Success(WithResponse)
    ensures r == Success(WithoutResponse) <==>
              !c.kind.Contains(WriteWithResponse) && c.kind.Contains(WriteWithoutResponse)
    ensures r.Failure? <==> !c.kind.Contains(WriteWithResponse) && !c.kind.Contains(WriteWithoutResponse)
    ensures r.Failure? ==> r.error == WriteNotSupport(c.uuid)
  {
    if c.kind.Contains(WriteWithResponse) then Success(WithResponse)
    else if c.kind.Contains(WriteWithoutResponse) then Success(WithoutResponse)
    else Failure(WriteNotSupport(c.uuid))
  }

  /**
   * A characteristic declared with both write capabilities, whatever else it
   * allows, is written with response.
   */
  lemma BothWriteFlagsPreferResponse(c: Characteristic)
    requires c.kind.Contains(WriteWithResponse) && c.kind.Contains(WriteWithoutResponse)
    ensures SelectWriteType(c) == Success(WithResponse)
  {
  }

  /**
   * A characteristic without either write capability (a read-only,
   * notify-only or read-and-notify one, say) cannot be written, and the
   * error names it.
   */
  lemma ReadNotifyIsNotWritable(c: Characteristic)
    requires !c.kind.Contains(WriteWithResponse) && !c.kind.Contains(WriteWithoutResponse)
    ensures SelectWriteType(c) == Failure(WriteNotSupport(c.uuid))
  {
  }

  /** The read-and-notify capability set has neither write capability. */
  lemma ReadNotifyHasNoWriteFlag()
    ensures !Read.Union(Notify).Contains(WriteWithResponse)
    ensures !Read.Union(Notify).Contains(WriteWithoutResponse)
    ensures Read.Union(Notify).Contains(Read) && Read.Union(Notify).Contains(Notify)
  {
  }
}
