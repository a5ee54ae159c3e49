/** What `act_as_device` builds from the discovered services: the list of
    service UUIDs to advertise, and the mirror services handed to the server
    stack, one `CopiedService` per service and one `CopiedCharacteristic`
    per characteristic. */
module Mirror {
  import opened Uuid
  import opened Gatt
  import opened Proxy

  /** A `CopiedService`: the primary service given to the server stack. */
  datatype CopiedService = CopiedService(name: string, uuid: string, characteristics: seq<CopiedCharacteristic>)

  // ---------------------------------------------------------------------
  // The advertising set

  /** The service UUIDs that are not in dashed Base-UUID form, in discovery
      order. */
  function AdvertisedUuids(services: seq<Service>): (uuids: seq<string>)
    ensures |uuids| <= |services|
    ensures forall u :: u in uuids ==> !IsBaseUuidDash(u)
  {
    if services == [] then []
    else
      var last := services[|services| - 1];
      AdvertisedUuids(services[..|services| - 1]) + (if IsBaseUuidDash(last.uuid) then [] else [last.uuid])
  }

  /** The set is taken service by service: that of a concatenation is the
      concatenation of the sets, so the order of discovery is kept. */
  lemma {:induction false} AdvertisedUuidsConcat(a: seq<Service>, b: seq<Service>)
    ensures AdvertisedUuids(a + b) == AdvertisedUuids(a) + AdvertisedUuids(b)
    decreases |b|
  {
    if b == [] {
      assert a + b == a;
    } else {
      var ab := a + b;
      assert ab[..|ab| - 1] == a + b[..|b| - 1];
      assert ab[|ab| - 1] == b[|b| - 1];
      AdvertisedUuidsConcat(a, b[..|b| - 1]);
    }
  }

  /** A UUID is advertised exactly when some discovered service has it and
      it is not in dashed Base-UUID form. */
  lemma {:induction false} AdvertisedUuidsMembers(services: seq<Service>, u: string)
    ensures u in AdvertisedUuids(services) <==>
      !IsBaseUuidDash(u) && exists i :: 0 <= i < |services| && services[i].uuid == u
  {
    if services != [] {
      var init := services[..|services| - 1];
      AdvertisedUuidsMembers(init, u);
      if exists i :: 0 <= i < |services| && services[i].uuid == u {
        var i :| 0 <= i < |services| && services[i].uuid == u;
        if i < |services| - 1 {
          assert init[i].uuid == u;
        }
      }
      if exists i :: 0 <= i < |init| && init[i].uuid == u {
        var i :| 0 <= i < |init| && init[i].uuid == u;
        assert services[i].uuid == u;
      }
    }
  }

  /** A service in Base-UUID form is left out; one with a custom UUID is
      advertised. */
  lemma AdvertisedUuidsOfOne(s: Service)
    ensures AdvertisedUuids([s]) == if IsBaseUuidDash(s.uuid) then [] else [s.uuid]
  {
    assert [s][..0] == [];
  }

  /** The `forEach` over the services that pushes each UUID not in dashed
      Base-UUID form onto `ADVERTISING_SERVICE_UUIDS`. */
  method AdvertisingServiceUuids(services: seq<Service>) returns (uuids: seq<string>)
    ensures uuids == AdvertisedUuids(services)
  {
    uuids := [];
    var i := 0;
    while i < |services|
      invariant 0 <= i <= |services|
      invariant uuids == AdvertisedUuids(services[..i])
    {
      assert services[..i + 1][..i] == services[..i];
      if !IsBaseUuidDash(services[i].uuid) {
        uuids := uuids + [services[i].uuid];
      }
      i := i + 1;
    }
    assert services[..|services|] == services;
  }

  // ---------------------------------------------------------------------
  // The mirror

  /** `copies` mirror `characteristics` one to one, in order: each copy is
      bound to its remote characteristic and has its uuid and properties,
      whatever the property flags are. */
  ghost predicate CopiesOf(copies: seq<CopiedCharacteristic>, characteristics: seq<RemoteCharacteristic>)
  {
    && |copies| == |characteristics|
    && forall k :: 0 <= k < |copies| ==>
         && copies[k].remote == characteristics[k]
         && copies[k].uuid == characteristics[k].uuid
         && copies[k].properties == characteristics[k].properties
  }

  /** `mirror` has one service per discovered service, in order, with the
      same name and uuid, holding copies of its characteristics. */
  ghost predicate Mirrors(mirror: seq<CopiedService>, services: seq<Service>)
  {
    && |mirror| == |services|
    && forall i :: 0 <= i < |mirror| ==>
         && mirror[i].name == services[i].name
         && mirror[i].uuid == services[i].uuid
         && CopiesOf(mirror[i].characteristics, services[i].characteristics)
  }

  /** The total number of characteristics, which the mirror preserves. */
  function CountCharacteristics(services: seq<Service>): nat
  {
    if services == [] then 0
    else CountCharacteristics(services[..|services| - 1]) + |services[|services| - 1].characteristics|
  }

  function CountCopies(mirror: seq<CopiedService>): nat
  {
    if mirror == [] then 0
    else CountCopies(mirror[..|mirror| - 1]) + |mirror[|mirror| - 1].characteristics|
  }

  /** A mirror holds exactly as many characteristics as were discovered. */
  lemma {:induction false} MirrorsCount(mirror: seq<CopiedService>, services: seq<Service>)
    requires Mirrors(mirror, services)
    ensures CountCopies(mirror) == CountCharacteristics(services)
    decreases |services|
  {
    if services != [] {
      var n := |services| - 1;
      assert Mirrors(mirror[..n], services[..n]);
      MirrorsCount(mirror[..n], services[..n]);
    }
  }

  /** The nested `forEach` of the `advertisingStart` handler that builds
      `c_services`: a `CopiedService` per service and a new
      `CopiedCharacteristic` per characteristic. */
  method BuildMirror(services: seq<Service>) returns (mirror: seq<CopiedService>)
    ensures Mirrors(mirror, services)
    ensures forall i, k :: 0 <= i < |mirror| && 0 <= k < |mirror[i].characteristics| ==> fresh(mirror[i].characteristics[k])
  {
    mirror := [];
    var i := 0;
    while i < |services|
      invariant 0 <= i <= |services|
      invariant Mirrors(mirror, services[..i])
      invariant forall i', k :: 0 <= i' < |mirror| && 0 <= k < |mirror[i'].characteristics| ==> fresh(mirror[i'].characteristics[k])
    {
      var service := services[i];
      var copies: seq<CopiedCharacteristic> := [];
      var j := 0;
      while j < |service.characteristics|
        invariant 0 <= j <= |service.characteristics|
        invariant CopiesOf(copies, service.characteristics[..j])
        invariant forall k :: 0 <= k < |copies| ==> fresh(copies[k])
      {
        var copy := new CopiedCharacteristic(service.characteristics[j]);
        copies := copies + [copy];
        j := j + 1;
      }
      assert service.characteristics[..j] == service.characteristics;
      mirror := mirror + [CopiedService(service.name, service.uuid, copies)];
      i := i + 1;
    }
    assert services[..i] == services;
  }
}
