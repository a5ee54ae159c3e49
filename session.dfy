/** The relay session: the event handlers that take the relay from scanning
    for the target, through connecting and discovery, to advertising the
    mirror. Calls into the two Bluetooth stacks are recorded, in order, as
    the commands the session has issued; events from the stacks, with their
    completions, are the inputs of the handlers. */
module Session {
  import opened Uuid
  import opened Address
  import opened Gatt
  import opened Proxy
  import opened Mirror

  // ---------------------------------------------------------------------
  // Device name

  const Unnamed: string := "[UNNAMED]"
  const CopySuffix: string := " - copy"

  /** `DEVICE_NAME` after a connection: the advertised local name, or
      "[UNNAMED]" when it is empty, followed by " - copy" when
      `ADD_DEVICE_NAME_COPY` is set. */
  function DeviceName(localName: string, addCopy: bool): (name: string)
    ensures name != ""
    ensures |name| == (if localName == "" then |Unnamed| else |localName|) + (if addCopy then |CopySuffix| else 0)
    ensures localName != "" ==> name[..|localName|] == localName
    ensures localName == "" ==> name[..|Unnamed|] == Unnamed
    ensures addCopy ==> name[|name| - |CopySuffix|..] == CopySuffix
  {
    (if localName == "" then Unnamed else localName) + (if addCopy then CopySuffix else "")
  }

  /** Without the copy flag a non-empty local name is taken as it is. */
  lemma DeviceNameKeepsLocalName(localName: string)
    requires localName != ""
    ensures DeviceName(localName, false) == localName
  {
    var name := DeviceName(localName, false);
    assert name == name[..|localName|];
  }

  // ---------------------------------------------------------------------
  // Device Name characteristics

  /** The discovered characteristics whose uuid is the Device Name
      characteristic, in discovery order. */
  function NameCharacteristics(cs: seq<RemoteCharacteristic>): (targets: seq<RemoteCharacteristic>)
    ensures |targets| <= |cs|
    ensures forall c :: c in targets ==> IsDeviceNameUuid(c.uuid)
  {
    if cs == [] then []
    else
      var last := cs[|cs| - 1];
      NameCharacteristics(cs[..|cs| - 1]) + (if IsDeviceNameUuid(last.uuid) then [last] else [])
  }

  /** The filter is taken characteristic by characteristic: that of a
      concatenation is the concatenation of the filters, so the reads keep
      the order of discovery. */
  lemma {:induction false} NameCharacteristicsConcat(a: seq<RemoteCharacteristic>, b: seq<RemoteCharacteristic>)
    ensures NameCharacteristics(a + b) == NameCharacteristics(a) + NameCharacteristics(b)
    decreases |b|
  {
    if b == [] {
      assert a + b == a;
    } else {
      var init, last, ab := b[..|b| - 1], b[|b| - 1], a + b;
      assert ab[..|ab| - 1] == a + init;
      assert ab[|ab| - 1] == last;
      var kept := if IsDeviceNameUuid(last.uuid) then [last] else [];
      assert NameCharacteristics(ab) == NameCharacteristics(a + init) + kept;
      assert NameCharacteristics(b) == NameCharacteristics(init) + kept;
      NameCharacteristicsConcat(a, init);
    }
  }

  /** A single characteristic is read exactly when it has the Device Name
      uuid. */
  lemma NameCharacteristicsOfOne(c: RemoteCharacteristic)
    ensures NameCharacteristics([c]) == if IsDeviceNameUuid(c.uuid) then [c] else []
  {
    assert [c][..0] == [];
  }

  /** A characteristic is read for its name exactly when it was discovered
      and has the Device Name uuid. */
  lemma {:induction false} NameCharacteristicsMembers(cs: seq<RemoteCharacteristic>, c: RemoteCharacteristic)
    ensures c in NameCharacteristics(cs) <==> c in cs && IsDeviceNameUuid(c.uuid)
  {
    if cs != [] {
      var init := cs[..|cs| - 1];
      NameCharacteristicsMembers(init, c);
      assert cs == init + [cs[|cs| - 1]];
    }
  }

  /** The `forEach` of the discovery callback that reads every Device Name
      characteristic. */
  method DeviceNameReads(cs: seq<RemoteCharacteristic>) returns (targets: seq<RemoteCharacteristic>)
    ensures targets == NameCharacteristics(cs)
  {
    targets := [];
    var i := 0;
    while i < |cs|
      invariant 0 <= i <= |cs|
      invariant targets == NameCharacteristics(cs[..i])
    {
      assert cs[..i + 1][..i] == cs[..i];
      if IsDeviceNameUuid(cs[i].uuid) {
        targets := targets + [cs[i]];
      }
      i := i + 1;
    }
    assert cs[..|cs|] == cs;
  }

  // ---------------------------------------------------------------------
  // The session

  /** A call into the client stack (scan, connect, discovery, a read of a
      Device Name characteristic) or into the server stack (advertising,
      the services to serve). */
  datatype Command =
    | StartScanning
    | StopScanning
    | Connect(peripheral: Peripheral)
    | DiscoverAll(peripheral: Peripheral)
    | ReadDeviceName(characteristic: RemoteCharacteristic)
    | StartAdvertising(name: Option<string>, serviceUuids: seq<string>)
    | StopAdvertising
    | SetServices(services: seq<CopiedService>)

  /** What `discoverAllServicesAndCharacteristics` reports: the services,
      each with its characteristics, and all characteristics in one list. */
  datatype Discovery = Discovery(services: seq<Service>, characteristics: seq<RemoteCharacteristic>)

  /** One read request per characteristic, in the same order. */
  function ReadCommands(cs: seq<RemoteCharacteristic>): seq<Command>
  {
    seq(|cs|, i requires 0 <= i < |cs| => ReadDeviceName(cs[i]))
  }

  class Relay {
    /** `TARGET_MAC`, the address given on the command line. */
    const target: string
    /** `ADD_DEVICE_NAME_COPY` */
    const addNameCopy: bool
    /** `DEVICE_NAME`, unset until a connection succeeds. */
    var deviceName: Option<string>
    /** The services `act_as_device` was called with; the handlers it
        registers on the server stack exist once this is set. */
    var discovered: Option<seq<Service>>
    /** `ADVERTISING_SERVICE_UUIDS` of that call. */
    var advertisingUuids: seq<string>
    /** The commands issued so far, oldest first. */
    var issued: seq<Command>

    /** The target passed the address check; the advertising set is always
        the one of the discovered services; a device name, once set, is not
        empty. */
    ghost predicate Valid()
      reads this
    {
      && IsMacAddress(target)
      && (discovered.None? ==> advertisingUuids == [])
      && (discovered.Some? ==> advertisingUuids == AdvertisedUuids(discovered.value))
      && (deviceName.Some? ==> deviceName.value != "")
    }

    /** The state once the arguments are checked: nothing issued yet. */
    constructor (target: string, addNameCopy: bool)
      requires IsMacAddress(target)
      ensures Valid()
      ensures this.target == target && this.addNameCopy == addNameCopy
      ensures deviceName == None && discovered == None && issued == []
    {
      this.target := target;
      this.addNameCopy := addNameCopy;
      deviceName := None;
      discovered := None;
      advertisingUuids := [];
      issued := [];
    }

    /** The client stack's `stateChange`: scanning starts when the radio is
        powered on and stops otherwise. */
    method OnClientStateChange(poweredOn: bool)
      requires Valid()
      modifies this
      ensures Valid()
      ensures issued == old(issued) + [if poweredOn then StartScanning else StopScanning]
      ensures deviceName == old(deviceName) && discovered == old(discovered) && advertisingUuids == old(advertisingUuids)
    {
      issued := issued + [if poweredOn then StartScanning else StopScanning];
    }

    /** `discover`: a peripheral whose address is not the lower-cased target
        changes nothing; a matching one stops the scan and then gets exactly
        one connect attempt. */
    method OnDiscover(peripheral: Peripheral)
      requires Valid()
      modifies this
      ensures Valid()
      ensures issued == old(issued) + (if ScanMatch(peripheral.address, target) then [StopScanning, Connect(peripheral)] else [])
      ensures deviceName == old(deviceName) && discovered == old(discovered) && advertisingUuids == old(advertisingUuids)
    {
      if peripheral.address != LowerStr(target) {
        return;
      }
      issued := issued + [StopScanning, Connect(peripheral)];
    }

    /** The connect callback: on error nothing changes and discovery is not
        requested; on success the device name is derived from the local name
        and discovery of all services and characteristics is requested. */
    method OnConnect(peripheral: Peripheral, completion: Completion<()>)
      requires Valid()
      modifies this
      ensures Valid()
      ensures completion.Failed? ==> deviceName == old(deviceName) && issued == old(issued)
      ensures completion.Done? ==>
        deviceName == Some(DeviceName(peripheral.localName, addNameCopy)) &&
        issued == old(issued) + [DiscoverAll(peripheral)]
      ensures discovered == old(discovered) && advertisingUuids == old(advertisingUuids)
    {
      if completion.Failed? {
        return;
      }
      var name := peripheral.localName;
      if name == "" {
        name := Unnamed;
      }
      var deviceNameValue := name;
      if addNameCopy {
        deviceNameValue := deviceNameValue + CopySuffix;
      }
      assert deviceNameValue == DeviceName(peripheral.localName, addNameCopy) by {
        assert name + "" == name;
      }
      deviceName := Some(deviceNameValue);
      issued := issued + [DiscoverAll(peripheral)];
    }

    /** The discovery callback: on error nothing changes. On success every
        Device Name characteristic is read, in discovery order, and then
        `act_as_device` computes the advertising set and registers the
        server-stack handlers for these services. */
    method OnServicesDiscovered(completion: Completion<Discovery>)
      requires Valid()
      modifies this
      ensures Valid()
      ensures completion.Failed? ==>
        issued == old(issued) && discovered == old(discovered) && advertisingUuids == old(advertisingUuids)
      ensures completion.Done? ==>
        && issued == old(issued) + ReadCommands(NameCharacteristics(completion.value.characteristics))
        && discovered == Some(completion.value.services)
        && advertisingUuids == AdvertisedUuids(completion.value.services)
      ensures deviceName == old(deviceName)
    {
      if completion.Failed? {
        return;
      }
      var nameReads := DeviceNameReads(completion.value.characteristics);
      issued := issued + ReadCommands(nameReads);
      var uuids := AdvertisingServiceUuids(completion.value.services);
      advertisingUuids := uuids;
      discovered := Some(completion.value.services);
    }

    /** The server stack's `stateChange`, once `act_as_device` has
        registered it: advertise the device name with the advertising set
        when powered on, stop advertising otherwise. */
    method OnServerStateChange(poweredOn: bool)
      requires Valid()
      modifies this
      ensures Valid()
      ensures discovered.None? ==> issued == old(issued)
      ensures discovered.Some? ==>
        issued == old(issued) + [if poweredOn then StartAdvertising(deviceName, advertisingUuids) else StopAdvertising]
      ensures deviceName == old(deviceName) && discovered == old(discovered) && advertisingUuids == old(advertisingUuids)
    {
      if discovered.None? {
        return;
      }
      if poweredOn {
        issued := issued + [StartAdvertising(deviceName, advertisingUuids)];
      } else {
        issued := issued + [StopAdvertising];
      }
    }

    /** `advertisingStart`: on error nothing is served; otherwise the mirror
        of the discovered services is built and handed to the server
        stack. */
    method OnAdvertisingStart(completion: Completion<()>)
      requires Valid()
      modifies this
      ensures Valid()
      ensures discovered.None? || completion.Failed? ==> issued == old(issued)
      ensures discovered.Some? && completion.Done? ==>
        && |issued| == |old(issued)| + 1
        && issued[..|old(issued)|] == old(issued)
        && issued[|old(issued)|].SetServices?
        && Mirrors(issued[|old(issued)|].services, discovered.value)
      ensures deviceName == old(deviceName) && discovered == old(discovered) && advertisingUuids == old(advertisingUuids)
    {
      if discovered.None? || completion.Failed? {
        return;
      }
      var mirror := BuildMirror(discovered.value);
      issued := issued + [SetServices(mirror)];
    }
  }

  /** The example target of the scenario below is a valid address. The
      address is a parameter pinned to the literal, so that the literal is
      unfolded here and not at each call site. */
  lemma ExampleTargetIsMac(target: string)
    requires target == "AA:BB:CC:DD:EE:FF"
    ensures IsMacAddress(target)
  {
    assert MacShape(target);
    MacAddressShape(target);
  }

  /** Its lower-case form, with the literal pinned the same way. */
  lemma ExampleTargetLower(target: string)
    requires target == "AA:BB:CC:DD:EE:FF"
    ensures LowerStr(target) == "aa:bb:cc:dd:ee:ff"
  {
  }

  /** A discovery whose address is not the target's never leads to a connect
      attempt. */
  method NoConnectWithoutMatch()
  {
    var target := "AA:BB:CC:DD:EE:FF";
    ExampleTargetIsMac(target);
    ExampleTargetLower(target);
    var relay := new Relay(target, false);
    relay.OnClientStateChange(true);
    var other := Peripheral("11:22:33:44:55:66", "other");
    assert other.address[0] != LowerStr(target)[0];
    relay.OnDiscover(other);
    assert relay.issued == [StartScanning];
  }

  /** A matching discovery stops the scan and connects once, and a failed
      connect never leads to discovery. */
  method FailedConnectEndsSession()
  {
    var target := "AA:BB:CC:DD:EE:FF";
    ExampleTargetIsMac(target);
    ExampleTargetLower(target);
    var relay := new Relay(target, false);
    var device := Peripheral("aa:bb:cc:dd:ee:ff", "");
    relay.OnDiscover(device);
    assert relay.issued == [StopScanning, Connect(device)];
    relay.OnConnect(device, Failed);
    assert relay.issued == [StopScanning, Connect(device)] && relay.deviceName == None;
  }
}
