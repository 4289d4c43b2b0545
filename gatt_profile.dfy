/**
 * `BluetoothGATTProfile`: the declared characteristics of a peripheral and
 * the services they belong to, deduplicated by service identity (UUID).
 */
module GattProfile {
  import opened Foundation
  import Radio
  import opened GattService
  import opened GattCharacteristic

  /** Both fields are `let` in the source: a profile is a value holding references to mutable descriptors. */
  datatype Profile = Profile(characteristics: seq<Characteristic>, services: seq<Service>)

  /** `characteristics.map { $0.service }` */
  function ServicesOf(cs: seq<Characteristic>): (r: seq<Service>)
    ensures |r| == |cs|
    ensures forall i :: 0 <= i < |cs| ==> r[i] == cs[i].service
  {
    seq(|cs|, i requires 0 <= i < |cs| => cs[i].service)
  }

  /** The UUIDs occurring in `ss`. */
  function UuidsOf(ss: seq<Service>): set<Radio.Uuid> {
    set s | s in ss :: s.uuid
  }

  /** No two entries of `ss` have the same UUID (are equal as services). */
  ghost predicate DistinctUuids(ss: seq<Service>) {
    forall i, j :: 0 <= i < j < |ss| ==> ss[i].uuid != ss[j].uuid
  }

  /**
   * `Set(services)` followed by `map { $0 }`: one service per UUID not yet in
   * `seen`, the first of its UUID, in order of first occurrence.
   */
  function DedupByUuid(ss: seq<Service>, seen: set<Radio.Uuid>): (r: seq<Service>)
    ensures DistinctUuids(r)
    ensures forall s :: s in r ==> s in ss && s.uuid !in seen
    ensures forall s :: s in ss && s.uuid !in seen ==> s.uuid in UuidsOf(r)
    ensures |r| <= |ss|
    decreases |ss|
  {
    if |ss| == 0 then []
    else if ss[0].uuid in seen then DedupByUuid(ss[1..], seen)
    else [ss[0]] + DedupByUuid(ss[1..], seen + {ss[0].uuid})
  }

  /** `BluetoothGATTProfile.init(characteristics:)` */
  function NewProfile(cs: seq<Characteristic>): (p: Profile)
    ensures p.characteristics == cs
    ensures forall c :: c in cs ==> exists s :: s in p.services && s.Equals(c.service)
    ensures forall s :: s in p.services ==> exists c :: c in cs && c.service == s
    ensures DistinctUuids(p.services)
    ensures |p.services| <= |cs|
    ensures cs == [] ==> p.services == []
  {
    var services := DedupByUuid(ServicesOf(cs), {});
    DedupCoversCharacteristics(cs, services);
    DedupComesFromCharacteristics(cs, services);
    Profile(cs, services)
  }

  /** Helper for `NewProfile`: every characteristic's service is represented by an equal service. */
  lemma DedupCoversCharacteristics(cs: seq<Characteristic>, services: seq<Service>)
    requires services == DedupByUuid(ServicesOf(cs), {})
    ensures forall c :: c in cs ==> exists s :: s in services && s.Equals(c.service)
  {
    forall c | c in cs
      ensures exists s :: s in services && s.Equals(c.service)
    {
      ServiceOfMemberIsListed(cs, c);
      assert c.service.uuid in UuidsOf(services);
      var t :| t in services && t.uuid == c.service.uuid;
      assert t.Equals(c.service);
    }
  }

  /** The service of a declared characteristic is among the mapped services. */
  lemma ServiceOfMemberIsListed(cs: seq<Characteristic>, c: Characteristic)
    requires c in cs
    ensures c.service in ServicesOf(cs)
  {
    var i :| 0 <= i < |cs| && cs[i] == c;
    assert ServicesOf(cs)[i] == c.service;
  }

  /** Helper for `NewProfile`: every kept service is the service of some characteristic. */
  lemma DedupComesFromCharacteristics(cs: seq<Characteristic>, services: seq<Service>)
    requires services == DedupByUuid(ServicesOf(cs), {})
    ensures forall s :: s in services ==> exists c :: c in cs && c.service == s
  {
    var all := ServicesOf(cs);
    forall s | s in services
      ensures exists c :: c in cs && c.service == s
    {
      assert s in all;
      var i :| 0 <= i < |all| && all[i] == s;
      assert cs[i] in cs && cs[i].service == s;
    }
  }

  /** The declared services really are distinct objects (distinct UUIDs imply distinct references). */
  lemma DistinctUuidsAreDistinct(ss: seq<Service>, i: int, j: int)
    requires DistinctUuids(ss) && 0 <= i < j < |ss|
    ensures ss[i] != ss[j]
  {
  }

  /** `services.allSatisfy { $0.service != nil }` */
  function ServicesResolved(ss: seq<Service>): (r: bool)
    reads ss
    ensures r <==> forall i :: 0 <= i < |ss| ==> ss[i].handle.Some?
  {
    |ss| == 0 || (ss[0].handle.Some? && ServicesResolved(ss[1..]))
  }

  /** `characteristics.allSatisfy { $0.characteristic != nil }` */
  function CharacteristicsResolved(cs: seq<Characteristic>): (r: bool)
    reads cs
    ensures r <==> forall i :: 0 <= i < |cs| ==> cs[i].handle.Some?
  {
    |cs| == 0 || (cs[0].handle.Some? && CharacteristicsResolved(cs[1..]))
  }

  /**
   * `isReadyToInitiate`: every declared service and every declared
   * characteristic of the profile has been resolved.
   */
  function ProfileResolved(p: Profile): (r: bool)
    reads p.services, p.characteristics
    ensures r <==> (forall s :: s in p.services ==> s.handle.Some?) &&
                   (forall c :: c in p.characteristics ==> c.handle.Some?)
  {
    ServicesResolved(p.services) && CharacteristicsResolved(p.characteristics)
  }

  /**
   * The declared characteristics that belong to the service with UUID `uuid`
   * (compared ignoring case) and are still unresolved, in declaration order.
   */
  function UnresolvedOfService(cs: seq<Characteristic>, uuid: Radio.Uuid): (r: seq<Characteristic>)
    reads cs
    ensures forall c :: c in r ==> c in cs && SameIgnoringCase(c.service.uuid, uuid) && c.handle.None?
    ensures forall c :: c in cs && SameIgnoringCase(c.service.uuid, uuid) && c.handle.None? ==> c in r
    ensures |r| <= |cs|
  {
    if |cs| == 0 then []
    else
      var rest := UnresolvedOfService(cs[1..], uuid);
      assert forall c :: c in cs ==> c == cs[0] || c in cs[1..];
      if SameIgnoringCase(cs[0].service.uuid, uuid) && cs[0].handle.None? then [cs[0]] + rest else rest
  }
}
