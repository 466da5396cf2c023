/** The `hostname.if` renderer of interface_config.py: the helpers that turn
    inventory records into configuration fragments, and `Run`, which writes
    them into a priority-keyed map and emits the sorted, newline-joined text.
    Each NetBox query is a lookup in a `Snapshot`. */
module InterfaceConfig {
  import opened Text
  import opened Inventory
  import opened Assembler

  // ---------------------------------------------------------------------
  // Small renderings shared by several helpers

  /** Python's f-string rendering of an optional string: `None` prints as
      "None". */
  function PyStr(o: Option<string>): (r: string)
    ensures o.Some? ==> r == o.value
    ensures o.None? ==> r == "None"
  {
    match o
    case None => "None"
    case Some(s) => s
  }

  /** `if interface.label:` — a label that is present and non-empty. */
  predicate HasLabel(i: Interface) {
    i.ifLabel.Some? && i.ifLabel.value != ""
  }

  /** The peer interface's label when it has one, its name otherwise. */
  function LabelOrName(i: Interface): (r: string)
    ensures HasLabel(i) ==> r == i.ifLabel.value
    ensures !HasLabel(i) ==> r == i.name
  {
    if HasLabel(i) then i.ifLabel.value else i.name
  }

  /** `"<device> | <interface>"` for a peer found by id. */
  function PeerDescription(snap: Snapshot, deviceId: int, interfaceId: int): (r: string)
    requires deviceId in snap.devices && interfaceId in snap.interfaces
    ensures var peer := snap.interfaces[interfaceId];
      && (HasLabel(peer) ==> r == snap.devices[deviceId].display + " | " + peer.ifLabel.value)
      && (!HasLabel(peer) ==> r == snap.devices[deviceId].display + " | " + peer.name)
  {
    snap.devices[deviceId].display + " | " + LabelOrName(snap.interfaces[interfaceId])
  }

  /** The line stored at key 800. */
  function DescriptionLine(text: string): string {
    "description \"" + text + "\""
  }

  // ---------------------------------------------------------------------
  // get_interface_status

  /** "up" for an enabled interface, the empty string for a disabled one. */
  function InterfaceStatus(status: bool): (r: string)
    ensures r == "up" <==> status
    ensures !status <==> r == ""
  {
    if status then "up" else ""
  }

  // ---------------------------------------------------------------------
  // get_interface_addresses

  /** `IPAddress.objects.filter(assigned_object_id=interface_id)`, in table
      order. */
  function AssignedTo(addresses: seq<IPAddress>, interfaceId: int): (r: seq<IPAddress>)
    ensures |r| <= |addresses|
    ensures forall j :: 0 <= j < |r| ==> r[j].assignedObjectId == Some(interfaceId) && r[j] in addresses
  {
    if addresses == [] then []
    else
      var init := AssignedTo(addresses[..|addresses| - 1], interfaceId);
      var last := addresses[|addresses| - 1];
      if last.assignedObjectId == Some(interfaceId) then init + [last] else init
  }

  /** The indices of the addresses assigned to `interfaceId`, ascending. */
  function AssignedPositions(addresses: seq<IPAddress>, interfaceId: int): seq<int> {
    if addresses == [] then []
    else
      var init := AssignedPositions(addresses[..|addresses| - 1], interfaceId);
      if addresses[|addresses| - 1].assignedObjectId == Some(interfaceId) then init + [|addresses| - 1] else init
  }

  /** The filter keeps exactly the interface's addresses: the j-th result is
      the j-th assigned address of the table, each once, in table order, and
      no assigned address is dropped. */
  lemma {:induction false} AssignedToFollowsTable(addresses: seq<IPAddress>, interfaceId: int)
    ensures |AssignedPositions(addresses, interfaceId)| == |AssignedTo(addresses, interfaceId)|
    ensures forall j :: 0 <= j < |AssignedTo(addresses, interfaceId)| ==>
              && 0 <= AssignedPositions(addresses, interfaceId)[j] < |addresses|
              && AssignedTo(addresses, interfaceId)[j] == addresses[AssignedPositions(addresses, interfaceId)[j]]
    ensures forall j, j' :: 0 <= j < j' < |AssignedTo(addresses, interfaceId)| ==>
              AssignedPositions(addresses, interfaceId)[j] < AssignedPositions(addresses, interfaceId)[j']
    ensures forall i :: 0 <= i < |addresses| && addresses[i].assignedObjectId == Some(interfaceId) ==>
              i in AssignedPositions(addresses, interfaceId)
  {
    if addresses != [] {
      var init := addresses[..|addresses| - 1];
      AssignedToFollowsTable(init, interfaceId);
      forall i | 0 <= i < |init| ensures addresses[i] == init[i] { }
      var r, p := AssignedTo(addresses, interfaceId), AssignedPositions(addresses, interfaceId);
      var r0, p0 := AssignedTo(init, interfaceId), AssignedPositions(init, interfaceId);
      if addresses[|addresses| - 1].assignedObjectId == Some(interfaceId) {
        assert r == r0 + [addresses[|addresses| - 1]] && p == p0 + [|addresses| - 1];
      } else {
        assert r == r0 && p == p0;
      }
    }
  }

  /** The address forms the formatter knows: a dhcp status, or text with a
      `.` or a `:` in it. */
  predicate Recognized(a: IPAddress) {
    a.status == "dhcp" || '.' in a.text || ':' in a.text
  }

  /** The fragment one address contributes, if any. */
  function AddressFragment(a: IPAddress): (r: Option<string>)
    ensures r.Some? <==> Recognized(a)
    ensures r.Some? ==> IsPrefix("inet", r.value)
    ensures a.status == "dhcp" ==> r == Some("inet autoconf")
    ensures a.status != "dhcp" && '.' in a.text ==> r == Some("inet " + a.text)
    ensures a.status != "dhcp" && '.' !in a.text && ':' in a.text ==> r == Some("inet6 " + a.text)
  {
    if a.status == "dhcp" then Some("inet autoconf")
    else if '.' in a.text then Some("inet " + a.text)
    else if ':' in a.text then Some("inet6 " + a.text)
    else None
  }

  /** The fragments of a sequence of addresses, in input order. */
  function Fragments(s: seq<IPAddress>): (r: seq<string>)
    ensures |r| <= |s|
    ensures forall j :: 0 <= j < |r| ==> IsPrefix("inet", r[j])
  {
    if s == [] then []
    else
      var init := Fragments(s[..|s| - 1]);
      match AddressFragment(s[|s| - 1])
      case None => init
      case Some(f) => init + [f]
  }

  /** The indices of the recognized addresses, ascending. */
  function RecognizedPositions(s: seq<IPAddress>): seq<int> {
    if s == [] then []
    else
      var init := RecognizedPositions(s[..|s| - 1]);
      if Recognized(s[|s| - 1]) then init + [|s| - 1] else init
  }

  /** The j-th fragment is the fragment of the j-th recognized address: the
      fragments are the recognized addresses' fragments, each once, in input
      order, and unrecognized addresses leave no trace. */
  lemma {:induction false} FragmentsFollowInput(s: seq<IPAddress>)
    ensures |RecognizedPositions(s)| == |Fragments(s)|
    ensures forall j :: 0 <= j < |Fragments(s)| ==>
              && 0 <= RecognizedPositions(s)[j] < |s|
              && AddressFragment(s[RecognizedPositions(s)[j]]) == Some(Fragments(s)[j])
    ensures forall j, j' :: 0 <= j < j' < |Fragments(s)| ==>
              RecognizedPositions(s)[j] < RecognizedPositions(s)[j']
    ensures forall i :: 0 <= i < |s| && Recognized(s[i]) ==> i in RecognizedPositions(s)
  {
    if s != [] {
      var init := s[..|s| - 1];
      FragmentsFollowInput(init);
      forall i | 0 <= i < |init| ensures s[i] == init[i] { }
      var r, p := Fragments(s), RecognizedPositions(s);
      var r0, p0 := Fragments(init), RecognizedPositions(init);
      match AddressFragment(s[|s| - 1])
      case None =>
        assert r == r0 && p == p0;
      case Some(f) =>
        assert r == r0 + [f] && p == p0 + [|s| - 1];
    }
  }

  /** As many fragments as recognized addresses. */
  lemma {:induction false} FragmentCount(s: seq<IPAddress>)
    ensures |Fragments(s)| == |set i | 0 <= i < |s| && Recognized(s[i])|
  {
    if s != [] {
      var n := |s| - 1;
      var init := s[..n];
      FragmentCount(init);
      var before := set i | 0 <= i < n && Recognized(init[i]);
      var all := set i | 0 <= i < |s| && Recognized(s[i]);
      if Recognized(s[n]) {
        assert all == before + {n};
      } else {
        assert all == before;
      }
    }
  }

  /** A dhcp address renders as "inet autoconf" whatever its text. */
  lemma DhcpIgnoresText(a: IPAddress, text: string)
    requires a.status == "dhcp"
    ensures AddressFragment(a) == AddressFragment(a.(text := text)) == Some("inet autoconf")
  {
  }

  /** get_interface_addresses: one loop over the interface's addresses that
      appends each recognized address's fragment. */
  method InterfaceAddresses(snap: Snapshot, interfaceId: int) returns (addresses: seq<string>)
    ensures addresses == Fragments(AssignedTo(snap.addresses, interfaceId))
  {
    addresses := [];
    var result := AssignedTo(snap.addresses, interfaceId);
    for i := 0 to |result|
      invariant addresses == Fragments(result[..i])
    {
      var address := result[i];
      assert result[..i + 1][..i] == result[..i];
      if address.status == "dhcp" {
        addresses := addresses + ["inet autoconf"];
      } else if '.' in address.text {
        addresses := addresses + ["inet " + address.text];
      } else if ':' in address.text {
        addresses := addresses + ["inet6 " + address.text];
      }
    }
    assert result[..|result|] == result;
  }

  // ---------------------------------------------------------------------
  // get_cable_terminations

  /** `CableTermination.objects.filter(cable_id=cable_id)`, in table order. */
  function TerminationsOf(ts: seq<CableTermination>, cableId: int): (r: seq<CableTermination>)
    ensures |r| <= |ts|
    ensures forall j :: 0 <= j < |r| ==> r[j].cableId == cableId && r[j] in ts
  {
    if ts == [] then []
    else
      var init := TerminationsOf(ts[..|ts| - 1], cableId);
      var last := ts[|ts| - 1];
      if last.cableId == cableId then init + [last] else init
  }

  /** The indices of the terminations of cable `cableId`, ascending. */
  function TerminationPositions(ts: seq<CableTermination>, cableId: int): seq<int> {
    if ts == [] then []
    else
      var init := TerminationPositions(ts[..|ts| - 1], cableId);
      if ts[|ts| - 1].cableId == cableId then init + [|ts| - 1] else init
  }

  /** The filter keeps exactly the cable's terminations: the j-th result is
      the j-th termination of the cable in the table, each once, in table
      order, and none of the cable's terminations is dropped. */
  lemma {:induction false} TerminationsFollowTable(ts: seq<CableTermination>, cableId: int)
    ensures |TerminationPositions(ts, cableId)| == |TerminationsOf(ts, cableId)|
    ensures forall j :: 0 <= j < |TerminationsOf(ts, cableId)| ==>
              && 0 <= TerminationPositions(ts, cableId)[j] < |ts|
              && TerminationsOf(ts, cableId)[j] == ts[TerminationPositions(ts, cableId)[j]]
    ensures forall j, j' :: 0 <= j < j' < |TerminationsOf(ts, cableId)| ==>
              TerminationPositions(ts, cableId)[j] < TerminationPositions(ts, cableId)[j']
    ensures forall i :: 0 <= i < |ts| && ts[i].cableId == cableId ==> i in TerminationPositions(ts, cableId)
  {
    if ts != [] {
      var init := ts[..|ts| - 1];
      TerminationsFollowTable(init, cableId);
      forall i | 0 <= i < |init| ensures ts[i] == init[i] { }
      var r, p := TerminationsOf(ts, cableId), TerminationPositions(ts, cableId);
      var r0, p0 := TerminationsOf(init, cableId), TerminationPositions(init, cableId);
      if ts[|ts| - 1].cableId == cableId {
        assert r == r0 + [ts[|ts| - 1]] && p == p0 + [|ts| - 1];
      } else {
        assert r == r0 && p == p0;
      }
    }
  }

  /** Every termination sits on the end `end`: none is on the other end. */
  predicate AllOnEnd(ts: seq<CableTermination>, end: string) {
    forall j :: 0 <= j < |ts| ==> ts[j].cableEnd == end
  }

  /** `i` is the first termination whose end differs from `end`. */
  predicate FirstOppositeAt(ts: seq<CableTermination>, end: string, i: int) {
    && 0 <= i < |ts|
    && ts[i].cableEnd != end
    && forall j :: 0 <= j < i ==> ts[j].cableEnd == end
  }

  /** The index of the first termination on the other end, if there is one. */
  function FirstOpposite(ts: seq<CableTermination>, end: string): (r: Option<int>)
    ensures r.Some? ==> FirstOppositeAt(ts, end, r.value)
    ensures r.None? <==> AllOnEnd(ts, end)
  {
    if ts == [] then None
    else if ts[0].cableEnd != end then Some(0)
    else
      match FirstOpposite(ts[1..], end)
      case None => None
      case Some(i) => Some(i + 1)
  }

  /** The lookups of get_cable_terminations succeed: the device and the
      interface of the first opposite termination exist. */
  predicate CableResolvable(snap: Snapshot, cableId: int, end: string) {
    var ts := TerminationsOf(snap.terminations, cableId);
    match FirstOpposite(ts, end)
    case None => true
    case Some(i) => ts[i].deviceId in snap.devices && ts[i].terminationId in snap.interfaces
  }

  /** The peer of a cable end: the description of the first termination of
      the cable on the other end, or nothing when every termination sits on
      this end. */
  function CablePeer(snap: Snapshot, cableId: int, end: string): (r: Option<string>)
    requires CableResolvable(snap, cableId, end)
    ensures var ts := TerminationsOf(snap.terminations, cableId);
      r.None? <==> AllOnEnd(ts, end)
    ensures var ts := TerminationsOf(snap.terminations, cableId);
      r.Some? ==> exists i ::
                    && FirstOppositeAt(ts, end, i)
                    && ts[i].deviceId in snap.devices && ts[i].terminationId in snap.interfaces
                    && r.value == PeerDescription(snap, ts[i].deviceId, ts[i].terminationId)
  {
    var ts := TerminationsOf(snap.terminations, cableId);
    match FirstOpposite(ts, end)
    case None => None
    case Some(i) => Some(PeerDescription(snap, ts[i].deviceId, ts[i].terminationId))
  }

  /** get_cable_terminations: scan the cable's terminations and return at the
      first one on the other end. */
  method GetCableTerminations(snap: Snapshot, cableId: int, end: string) returns (r: Option<string>)
    requires CableResolvable(snap, cableId, end)
    ensures r == CablePeer(snap, cableId, end)
  {
    var terminations := TerminationsOf(snap.terminations, cableId);
    for i := 0 to |terminations|
      invariant forall j :: 0 <= j < i ==> terminations[j].cableEnd == end
    {
      var termination := terminations[i];
      if termination.cableEnd != end {
        assert FirstOppositeAt(terminations, end, i);
        FirstOppositeUnique(terminations, end, i, FirstOpposite(terminations, end).value);
        var device := snap.devices[termination.deviceId];
        var iface := snap.interfaces[termination.terminationId];
        var name := if HasLabel(iface) then iface.ifLabel.value else iface.name;
        return Some(device.display + " | " + name);
      }
    }
    r := None;
  }

  lemma FirstOppositeUnique(ts: seq<CableTermination>, end: string, i: int, i': int)
    requires FirstOppositeAt(ts, end, i) && FirstOppositeAt(ts, end, i')
    ensures i == i'
  {
  }

  // ---------------------------------------------------------------------
  // get_wireless_terminations

  datatype Endpoint = Endpoint(deviceId: int, interfaceId: int)

  function EndpointA(link: WirelessLink): Endpoint {
    Endpoint(link.aDeviceId, link.aInterfaceId)
  }

  function EndpointB(link: WirelessLink): Endpoint {
    Endpoint(link.bDeviceId, link.bInterfaceId)
  }

  /** The other end of a wireless link seen from `deviceId`: B when A sits on
      that device, A otherwise. */
  function PeerEndpoint(link: WirelessLink, deviceId: int): (r: Endpoint)
    ensures link.aDeviceId == deviceId ==> r == EndpointB(link)
    ensures link.aDeviceId != deviceId ==> r == EndpointA(link)
  {
    if link.aDeviceId == deviceId then EndpointB(link) else EndpointA(link)
  }

  /** On a link between two different devices, each end's peer is the other
      end, so asking from the peer's device leads back. */
  lemma {:induction false} PeerOfPeer(link: WirelessLink, deviceId: int)
    requires link.aDeviceId != link.bDeviceId
    requires deviceId == link.aDeviceId || deviceId == link.bDeviceId
    ensures PeerEndpoint(link, deviceId).deviceId != deviceId
    ensures PeerEndpoint(link, PeerEndpoint(link, deviceId).deviceId).deviceId == deviceId
  {
  }

  /** The lookups of get_wireless_terminations succeed. */
  predicate WirelessResolvable(snap: Snapshot, linkId: int, deviceId: int) {
    && linkId in snap.links
    && var peer := PeerEndpoint(snap.links[linkId], deviceId);
    && peer.deviceId in snap.devices
    && peer.interfaceId in snap.interfaces
  }

  /** The two strings get_wireless_terminations returns. */
  datatype WirelessData = WirelessData(wireless: string, description: string)

  /** The nwid/wpakey directive of the link and the description of the peer
      endpoint. */
  function WirelessTerminations(snap: Snapshot, linkId: int, deviceId: int): (r: WirelessData)
    requires WirelessResolvable(snap, linkId, deviceId)
    ensures var link := snap.links[linkId];
      r.wireless == "nwid \"" + link.ssid + "\" wpakey \"" + link.authPsk + "\""
    ensures var peer := PeerEndpoint(snap.links[linkId], deviceId);
      r.description == PeerDescription(snap, peer.deviceId, peer.interfaceId)
  {
    var termination := snap.links[linkId];
    var peer := PeerEndpoint(termination, deviceId);
    WirelessData(
      "nwid \"" + termination.ssid + "\" wpakey \"" + termination.authPsk + "\"",
      PeerDescription(snap, peer.deviceId, peer.interfaceId))
  }

  // ---------------------------------------------------------------------
  // get_parent_interface and get_vlan_data

  /** `Interface.objects.get(id=parent_id)`. */
  function ParentInterface(snap: Snapshot, parentId: int): (r: Interface)
    requires snap.Valid() && parentId in snap.interfaces
    ensures r.id == parentId && r in snap.interfaces.Values
  {
    snap.interfaces[parentId]
  }

  /** The VLAN tag, the `vlandev` token and the VLAN name. */
  datatype VlanData = VlanData(vid: int, vlandev: string, description: string)

  /** The lookups of get_vlan_data succeed. `VLAN.objects.get(id=None)` fails,
      so both ids must be present. */
  predicate VlanResolvable(snap: Snapshot, vlanId: Option<int>, parentId: Option<int>) {
    && vlanId.Some? && vlanId.value in snap.vlans
    && parentId.Some? && parentId.value in snap.interfaces
  }

  /** The VLAN's tag and name, and the parent's label as the vlandev token. */
  function GetVlanData(snap: Snapshot, vlanId: Option<int>, parentId: Option<int>): (r: VlanData)
    requires snap.Valid() && VlanResolvable(snap, vlanId, parentId)
    ensures r.vid == snap.vlans[vlanId.value].vid
    ensures r.description == snap.vlans[vlanId.value].name
    ensures r.vlandev == PyStr(snap.interfaces[parentId.value].ifLabel)
  {
    var vlan := snap.vlans[vlanId.value];
    var vlandev := PyStr(ParentInterface(snap, parentId.value).ifLabel);
    VlanData(vlan.vid, vlandev, vlan.name)
  }

  /** `vlandev` never falls back to the parent's name: a parent without a
      label gives "None", and renaming the parent changes nothing. */
  lemma VlandevIgnoresName(snap: Snapshot, vlanId: Option<int>, parentId: Option<int>, newName: string)
    requires snap.Valid() && VlanResolvable(snap, vlanId, parentId)
    ensures var renamed := snap.(interfaces := snap.interfaces[parentId.value :=
                                   snap.interfaces[parentId.value].(name := newName)]);
      renamed.Valid() && VlanResolvable(renamed, vlanId, parentId) &&
      GetVlanData(renamed, vlanId, parentId) == GetVlanData(snap, vlanId, parentId)
    ensures snap.interfaces[parentId.value].ifLabel.None? ==>
      GetVlanData(snap, vlanId, parentId).vlandev == "None"
  {
  }

  // ---------------------------------------------------------------------
  // run

  /** The header line: the file path uses the label, never the name. */
  function Header(iface: Interface): (r: string)
    ensures IsPrefix("# /etc/hostname.", r) && r[|"# /etc/hostname."|..] == PyStr(iface.ifLabel)
  {
    "# /etc/hostname." + PyStr(iface.ifLabel)
  }

  /** The header names the file after the label: renaming the interface
      does not change it, and a missing label gives `hostname.None`. */
  lemma HeaderUsesLabel(iface: Interface, name: string)
    ensures Header(iface.(name := name)) == Header(iface)
    ensures HasLabel(iface) ==> Header(iface) == "# /etc/hostname." + iface.ifLabel.value
    ensures iface.ifLabel.None? ==> Header(iface) == "# /etc/hostname.None"
  {
  }

  /** The branch of `run` that writes the VLAN lines. */
  predicate VlanBranch(iface: Interface) {
    && !Contains(iface.ifType, "ieee802.11")
    && Contains(iface.ifType, "virtual")
    && Contains(iface.mode, "access")
  }

  /** Everything `run` looks up can be found. */
  predicate RunDefined(snap: Snapshot, device: Device, iface: Interface) {
    && snap.Valid()
    && (Truthy(iface.cableId) ==> CableResolvable(snap, iface.cableId.value, iface.cableEnd))
    && (!Truthy(iface.cableId) && Truthy(iface.wirelessLinkId) ==>
          WirelessResolvable(snap, iface.wirelessLinkId.value, device.id))
    && (VlanBranch(iface) ==> VlanResolvable(snap, iface.untaggedVlanId, iface.parentId))
  }

  /** The i-th fragment (counting from 1) at key 10 * i. */
  function AddressLines(frags: seq<string>): (m: Config)
    ensures forall k :: k in m ==> 10 <= k <= 10 * |frags|
    ensures forall k :: k in m ==> m[k] in frags
    ensures forall i :: 1 <= i <= |frags| ==> 10 * i in m && m[10 * i] == frags[i - 1]
  {
    if frags == [] then map[]
    else
      var n := |frags|;
      var init := AddressLines(frags[..n - 1]);
      assert forall j :: 0 <= j < n - 1 ==> frags[..n - 1][j] == frags[j];
      init[10 * n := frags[n - 1]]
  }

  /** The keys are exactly the multiples of ten from 10 to 10 * |frags|:
      every key is 10 * i for the i-th fragment, which it holds. */
  lemma {:induction false} AddressLinesExactly(frags: seq<string>)
    ensures forall k :: k in AddressLines(frags) ==>
              exists i :: 1 <= i <= |frags| && k == 10 * i && AddressLines(frags)[k] == frags[i - 1]
  {
    if frags != [] {
      var n := |frags|;
      var init := frags[..n - 1];
      AddressLinesExactly(init);
      var m := AddressLines(frags);
      assert m == AddressLines(init)[10 * n := frags[n - 1]];
      forall k | k in m ensures exists i :: 1 <= i <= n && k == 10 * i && m[k] == frags[i - 1] {
        if k == 10 * n {
          assert m[k] == frags[n - 1];
        } else {
          var i :| 1 <= i <= n - 1 && k == 10 * i && AddressLines(init)[k] == init[i - 1];
          assert m[k] == frags[i - 1];
        }
      }
    }
  }

  /** The lines the cable or wireless branch writes. */
  function LinkLines(snap: Snapshot, device: Device, iface: Interface): (m: Config)
    requires RunDefined(snap, device, iface)
    ensures m.Keys <= {500, 800}
    ensures (Truthy(iface.cableId) || Truthy(iface.wirelessLinkId)) <==> 800 in m
    ensures Truthy(iface.cableId) ==>
      && m.Keys == {800}
      && m[800] == DescriptionLine(PyStr(CablePeer(snap, iface.cableId.value, iface.cableEnd)))
    ensures !Truthy(iface.cableId) && !Truthy(iface.wirelessLinkId) ==> m == map[]
    ensures !Truthy(iface.cableId) && Truthy(iface.wirelessLinkId) ==>
      var data := WirelessTerminations(snap, iface.wirelessLinkId.value, device.id);
      && m.Keys == {500, 800}
      && m[500] == data.wireless && m[800] == DescriptionLine(data.description)
  {
    if Truthy(iface.cableId) then
      map[800 := DescriptionLine(PyStr(CablePeer(snap, iface.cableId.value, iface.cableEnd)))]
    else if Truthy(iface.wirelessLinkId) then
      var data := WirelessTerminations(snap, iface.wirelessLinkId.value, device.id);
      map[500 := data.wireless, 800 := DescriptionLine(data.description)]
    else map[]
  }

  /** The lines the VLAN branch writes. */
  function VlanLines(snap: Snapshot, iface: Interface): (m: Config)
    requires snap.Valid()
    requires VlanBranch(iface) ==> VlanResolvable(snap, iface.untaggedVlanId, iface.parentId)
    ensures m.Keys == if VlanBranch(iface) then {200, 210, 800} else {}
    ensures VlanBranch(iface) ==>
      var vlan := snap.vlans[iface.untaggedVlanId.value];
      && m[200] == "vlan " + IntToString(vlan.vid)
      && m[210] == "vlandev " + PyStr(snap.interfaces[iface.parentId.value].ifLabel)
      && m[800] == DescriptionLine(vlan.name)
  {
    if VlanBranch(iface) then
      var vlan := GetVlanData(snap, iface.untaggedVlanId, iface.parentId);
      map[200 := "vlan " + IntToString(vlan.vid),
          210 := "vlandev " + vlan.vlandev,
          800 := DescriptionLine(vlan.description)]
    else map[]
  }

  /** The fragments of the interface's own addresses. */
  function InterfaceFragments(snap: Snapshot, iface: Interface): seq<string> {
    Fragments(AssignedTo(snap.addresses, iface.id))
  }

  /** The layout of run's `config`: the header at 1, the address lines, the
      status at 999, then the link and VLAN writes, each group of writes
      overriding the earlier ones on the keys they share. */
  function Assemble(header: string, frags: seq<string>, status: string, link: Config, vlan: Config): Config {
    map[1 := header] + AddressLines(frags) + map[999 := status] + link + vlan
  }

  /** The final `config` map of `run`. */
  function RenderedConfig(snap: Snapshot, device: Device, iface: Interface): Config
    requires RunDefined(snap, device, iface)
  {
    Assemble(Header(iface), InterfaceFragments(snap, iface), InterfaceStatus(iface.enabled),
             LinkLines(snap, device, iface), VlanLines(snap, iface))
  }

  /** Writing into a union is writing into its right-hand side. */
  lemma UnionUpdate(a: Config, b: Config, k: int, v: string)
    ensures a + b[k := v] == (a + b)[k := v]
  {
  }

  /** The address loop of run: the i-th address (from 1) goes to key 10 * i,
      overwriting whatever `config` held there. */
  method PlaceAddresses(config: Config, addresses: seq<string>) returns (placed: Config)
    ensures placed == config + AddressLines(addresses)
  {
    placed := config;
    assert AddressLines([]) == map[];
    var position := 10;
    for j := 0 to |addresses|
      invariant position == 10 * (j + 1)
      invariant placed == config + AddressLines(addresses[..j])
    {
      assert addresses[..j + 1][..j] == addresses[..j];
      UnionUpdate(config, AddressLines(addresses[..j]), position, addresses[j]);
      placed := placed[position := addresses[j]];
      position := position + 10;
    }
    assert addresses[..|addresses|] == addresses;
  }

  /** The cable/wireless step of run: the lines it hands to `config.update`. */
  method LinkUpdate(snap: Snapshot, device: Device, iface: Interface) returns (lines: Config)
    requires RunDefined(snap, device, iface)
    ensures lines == LinkLines(snap, device, iface)
  {
    lines := map[];
    if Truthy(iface.cableId) {
      var description := GetCableTerminations(snap, iface.cableId.value, iface.cableEnd);
      lines := map[800 := DescriptionLine(PyStr(description))];
    } else if Truthy(iface.wirelessLinkId) {
      var data := WirelessTerminations(snap, iface.wirelessLinkId.value, device.id);
      lines := map[500 := data.wireless, 800 := DescriptionLine(data.description)];
    }
  }

  /** The VLAN step of run: the lines it hands to `config.update`. */
  method VlanUpdate(snap: Snapshot, iface: Interface) returns (lines: Config)
    requires snap.Valid()
    requires VlanBranch(iface) ==> VlanResolvable(snap, iface.untaggedVlanId, iface.parentId)
    ensures lines == VlanLines(snap, iface)
  {
    lines := map[];
    if Contains(iface.ifType, "ieee802.11") {
      // wireless interfaces get no VLAN lines
    } else if Contains(iface.ifType, "virtual") && Contains(iface.mode, "access") {
      var vlanData := GetVlanData(snap, iface.untaggedVlanId, iface.parentId);
      lines := map[200 := "vlan " + IntToString(vlanData.vid),
                   210 := "vlandev " + vlanData.vlandev,
                   800 := DescriptionLine(vlanData.description)];
    }
  }

  /** run: fill `config` step by step (`config.update(d)` is `config + d`)
      and emit it. The text is a function of the inputs, so identical inputs
      give identical text. */
  method Run(snap: Snapshot, device: Device, iface: Interface) returns (text: string)
    requires RunDefined(snap, device, iface)
    ensures text == Emit(RenderedConfig(snap, device, iface))
  {
    var file := "/etc/hostname." + PyStr(iface.ifLabel);
    var config: Config := map[1 := "# " + file];
    assert "# " + file == Header(iface) by {
      assert "# " + "/etc/hostname." == "# /etc/hostname.";
    }
    var addresses := InterfaceAddresses(snap, iface.id);
    config := PlaceAddresses(config, addresses);
    var enabled := InterfaceStatus(iface.enabled);
    config := config + map[999 := enabled];
    var link := LinkUpdate(snap, device, iface);
    config := config + link;
    var vlan := VlanUpdate(snap, iface);
    config := config + vlan;
    text := Emit(config);
  }
}
