/**
 * `BluetoothGATTService`: a declared service, identified by its UUID, with a
 * slot for the platform service once discovery resolves it.
 */
module GattService {
  import opened Foundation
  import Radio

  class Service {
    const uuid: Radio.Uuid
    /** The resolved `CBService`, written by discovery and cleared on reset. */
    var handle: Option<Radio.NativeService>

    constructor (uuid: Radio.Uuid)
      ensures this.uuid == uuid && handle == None
    {
      this.uuid := uuid;
      handle := None;
    }

    /**
     * `hash(into:)` combines the UUID and nothing else; the model takes the
     * hash to be collision-free. Neither this nor `Equals` has a reads
     * clause: no write to `handle` can change a service's hash or equality.
     */
    function HashValue(): Radio.Uuid {
      uuid
    }

    /** `==` compares hash values. */
    predicate Equals(other: Service)
      ensures Equals(other) <==> uuid == other.uuid
    {
      HashValue() == other.HashValue()
    }
  }

  /** Services with the same UUID hash alike, whatever their handles hold. */
  lemma HashOnlyUuid(a: Service, b: Service)
    requires a.uuid == b.uuid
    ensures a.HashValue() == b.HashValue()
  {
  }

  /** Equality of services is reflexive, symmetric and transitive. */
  lemma EqualsIsEquivalence(a: Service, b: Service, c: Service)
    ensures a.Equals(a)
    ensures a.Equals(b) ==> b.Equals(a)
    ensures a.Equals(b) && b.Equals(c) ==> a.Equals(c)
  {
  }
}
