/** The inventory records the renderer reads, as immutable snapshots.
    Each NetBox query the renderer makes (`Device.objects.get`,
    `Interface.objects.get`, `VLAN.objects.get`, `WirelessLink.objects.get`,
    `IPAddress.objects.filter`, `CableTermination.objects.filter`) becomes a
    lookup in one of the maps or a filter over one of the sequences of
    `Snapshot`. */
module Inventory {

  datatype Option<T> = None | Some(value: T)

  /** Python truthiness of an optional integer id (`if interface.cable_id:`):
      `None` and `0` are false. */
  predicate Truthy(id: Option<int>) {
    id.Some? && id.value != 0
  }

  /** `display` stands for `str(device)`, which the model treats as given. */
  datatype Device = Device(id: int, display: string)

  /** One interface record. `ifLabel` is NetBox's `label`, `ifType` its `type` tag (for example
      "virtual" or "ieee802.11ac"), `cableEnd` the end marker ("A"/"B") of
      the cable attached to it. */
  datatype Interface = Interface(
    id: int,
    name: string,
    ifLabel: Option<string>,
    enabled: bool,
    ifType: string,
    mode: string,
    parentId: Option<int>,
    untaggedVlanId: Option<int>,
    cableId: Option<int>,
    cableEnd: string,
    wirelessLinkId: Option<int>)

  /** An IP address; `text` stands for `str(address)`, `assignedObjectId` for
      the id of the object it is assigned to. */
  datatype IPAddress = IPAddress(assignedObjectId: Option<int>, text: string, status: string)

  /** One end of a cable: the device it sits on and the id of the terminating
      object. */
  datatype CableTermination = CableTermination(cableId: int, cableEnd: string, deviceId: int, terminationId: int)

  /** A wireless link with its two endpoints (A and B). */
  datatype WirelessLink = WirelessLink(
    id: int,
    ssid: string,
    authPsk: string,
    aDeviceId: int,
    aInterfaceId: int,
    bDeviceId: int,
    bInterfaceId: int)

  datatype VLAN = VLAN(id: int, vid: int, name: string)

  /** Everything a render can see: records by id, and the address and cable
      termination tables in the order the database returns them. */
  datatype Snapshot = Snapshot(
    devices: map<int, Device>,
    interfaces: map<int, Interface>,
    vlans: map<int, VLAN>,
    links: map<int, WirelessLink>,
    addresses: seq<IPAddress>,
    terminations: seq<CableTermination>)
  {
    /** A lookup by id returns the record with that id, as `.objects.get(id=…)`
        does. */
    predicate Valid() {
      && (forall k :: k in devices ==> devices[k].id == k)
      && (forall k :: k in interfaces ==> interfaces[k].id == k)
      && (forall k :: k in vlans ==> vlans[k].id == k)
      && (forall k :: k in links ==> links[k].id == k)
    }
  }
}
