/** Whole renders of small inventories, worked out line by line: each lemma
    states every line of the `hostname.if` file, in order. The text itself
    is these lines joined by newlines (`Assembler.Emit`), and splitting it
    at the newlines gives them back. */
module Scenarios {
  import opened Text
  import opened Inventory
  import opened Assembler
  import opened InterfaceConfig

  /** A physical interface with no cable, wireless link or VLAN. */
  function Em0(enabled: bool): Interface {
    Interface(1, "em0", Some("em0"), enabled, "1000base-t", "", None, None, None, "", None)
  }

  /** The lines of a three-key config {1, 10, 999}. */
  lemma ThreeLines(cfg: Config, a: string, b: string, c: string)
    requires cfg.Keys == {1, 10, 999}
    requires cfg[1] == a && cfg[10] == b && cfg[999] == c
    ensures |Lines(cfg)| == 3 && Lines(cfg)[0] == a && Lines(cfg)[1] == b && Lines(cfg)[2] == c
  {
    var ks := [1, 10, 999];
    assert forall x :: x in ks <==> x in cfg;
    LinesOfKeys(cfg, ks);
  }

  /** The one address of a single-address table, if it is the interface's,
      and its fragment. */
  lemma OneAddress(a: IPAddress, id: int)
    requires a.assignedObjectId == Some(id) && Recognized(a)
    ensures AssignedTo([a], id) == [a]
    ensures Fragments([a]) == [AddressFragment(a).value]
    ensures AddressLines(Fragments([a])) == map[10 := AddressFragment(a).value]
  {
    assert [a][..0] == [];
    var f := AddressFragment(a).value;
    assert [f][..0] == [];
  }

  lemma Em0Basics(iface: Interface)
    requires iface == Em0(iface.enabled)
    ensures Header(iface) == "# /etc/hostname.em0"
    ensures !VlanBranch(iface)
  {
    assert iface.mode == "" && iface.ifLabel == Some("em0");
    assert !Contains(iface.mode, "access");
    assert PyStr(iface.ifLabel) == "em0";
  }

  lemma StaticFragment(a: IPAddress)
    requires a == IPAddress(Some(1), "10.0.0.1", "active")
    ensures Recognized(a) && AddressFragment(a) == Some("inet 10.0.0.1")
  {
    assert a.status != "dhcp" && '.' in a.text;
    assert "inet " + a.text == "inet 10.0.0.1";
  }

  /** The config of em0 with one address and nothing else attached. */
  lemma Em0Config(snap: Snapshot, device: Device, iface: Interface, addr: IPAddress, f: string)
    requires iface == Em0(iface.enabled)
    requires snap == Snapshot(map[], map[1 := iface], map[], map[], [addr], [])
    requires addr.assignedObjectId == Some(1) && Recognized(addr) && AddressFragment(addr) == Some(f)
    ensures RunDefined(snap, device, iface)
    ensures var cfg := RenderedConfig(snap, device, iface);
      && cfg.Keys == {1, 10, 999}
      && cfg[1] == "# /etc/hostname.em0" && cfg[10] == f && cfg[999] == InterfaceStatus(iface.enabled)
  {
    OneAddress(addr, 1);
    Em0Basics(iface);
    assert LinkLines(snap, device, iface) == map[];
    assert VlanLines(snap, iface) == map[];
    AssembledOneAddress("# /etc/hostname.em0", f, InterfaceStatus(iface.enabled));
  }

  /** A config with one address and no link or VLAN lines. */
  lemma AssembledOneAddress(header: string, f: string, status: string)
    ensures var cfg := Assemble(header, [f], status, map[], map[]);
      && cfg.Keys == {1, 10, 999}
      && cfg[1] == header && cfg[10] == f && cfg[999] == status
  {
    assert [f][..0] == [];
    assert AddressLines([f]) == map[10 := f];
  }

  /** An enabled `em0` with the single address 10.0.0.1 renders as the
      header, one `inet` line and `up`. */
  lemma EnabledStaticAddress(snap: Snapshot, device: Device, iface: Interface)
    requires iface == Em0(true)
    requires snap == Snapshot(map[], map[1 := iface], map[], map[], [IPAddress(Some(1), "10.0.0.1", "active")], [])
    ensures RunDefined(snap, device, iface)
    ensures var lines := Lines(RenderedConfig(snap, device, iface));
      |lines| == 3 && lines[0] == "# /etc/hostname.em0" && lines[1] == "inet 10.0.0.1" && lines[2] == "up"
  {
    StaticFragment(snap.addresses[0]);
    Em0Config(snap, device, iface, snap.addresses[0], "inet 10.0.0.1");
    ThreeLines(RenderedConfig(snap, device, iface), "# /etc/hostname.em0", "inet 10.0.0.1", "up");
  }

  /** A disabled interface with a dhcp address renders `inet autoconf`, even
      though the address text is an IPv4 literal, and ends with an empty
      status line. */
  lemma DisabledDhcpAddress(snap: Snapshot, device: Device, iface: Interface)
    requires iface == Em0(false)
    requires snap == Snapshot(map[], map[1 := iface], map[], map[], [IPAddress(Some(1), "192.0.2.7", "dhcp")], [])
    ensures RunDefined(snap, device, iface)
    ensures var lines := Lines(RenderedConfig(snap, device, iface));
      |lines| == 3 && lines[0] == "# /etc/hostname.em0" && lines[1] == "inet autoconf" && lines[2] == ""
  {
    Em0Config(snap, device, iface, snap.addresses[0], "inet autoconf");
    ThreeLines(RenderedConfig(snap, device, iface), "# /etc/hostname.em0", "inet autoconf", "");
  }

  /** A virtual access interface on VLAN 7 whose parent is interface 3. */
  function Vlan100(): Interface {
    Interface(2, "vlan100", Some("vlan100"), true, "virtual", "access", Some(3), Some(7), None, "", None)
  }

  /** Its parent, named `em1` and labelled `trunk0`. */
  function Trunk0(): Interface {
    Interface(3, "em1", Some("trunk0"), true, "1000base-t", "tagged", None, None, None, "", None)
  }

  lemma Vlan100Basics(iface: Interface)
    requires iface == Vlan100()
    ensures Header(iface) == "# /etc/hostname.vlan100"
    ensures VlanBranch(iface)
  {
    assert PyStr(iface.ifLabel) == "vlan100";
    assert Contains(iface.ifType, "virtual") && Contains(iface.mode, "access");
    assert !Contains(iface.ifType, "ieee802.11");
  }

  lemma Vlan100Lines(snap: Snapshot, iface: Interface)
    requires iface == Vlan100()
    requires snap.interfaces == map[2 := iface, 3 := Trunk0()] && snap.vlans == map[7 := VLAN(7, 100, "guests")]
    requires snap.devices == map[] && snap.links == map[]
    ensures snap.Valid() && VlanResolvable(snap, iface.untaggedVlanId, iface.parentId)
    ensures VlanLines(snap, iface) == map[200 := "vlan 100", 210 := "vlandev trunk0", 800 := "description \"guests\""]
  {
    Vlan100Basics(iface);
    assert snap.interfaces.Keys == {2, 3} && snap.vlans.Keys == {7};
    assert snap.interfaces[2].id == 2 && snap.interfaces[3].id == 3 && snap.vlans[7].id == 7;
    assert snap.Valid();
    assert GetVlanData(snap, Some(7), Some(3)) == VlanData(100, "trunk0", "guests");
    Vlan100Text();
  }

  /** The three VLAN lines of VLAN 100 "guests" on parent `trunk0`. */
  lemma Vlan100Text()
    ensures "vlan " + IntToString(100) == "vlan 100"
    ensures "vlandev " + PyStr(Some("trunk0")) == "vlandev trunk0"
    ensures DescriptionLine("guests") == "description \"guests\""
  {
    assert IntToString(100) == "100";
  }

  /** The lines of a config with the keys {1, 200, 210, 800, 999}. */
  lemma FiveLines(cfg: Config, a: string, b: string, c: string, d: string, e: string)
    requires cfg.Keys == {1, 200, 210, 800, 999}
    requires cfg[1] == a && cfg[200] == b && cfg[210] == c && cfg[800] == d && cfg[999] == e
    ensures |Lines(cfg)| == 5
    ensures Lines(cfg)[0] == a && Lines(cfg)[1] == b && Lines(cfg)[2] == c && Lines(cfg)[3] == d && Lines(cfg)[4] == e
  {
    var ks := [1, 200, 210, 800, 999];
    assert forall x :: x in ks <==> x in cfg;
    LinesOfKeys(cfg, ks);
  }

  /** A config with VLAN lines and no address or link lines. */
  lemma AssembledVlanOnly(header: string, status: string, v: string, dev: string, d: string)
    ensures var cfg := Assemble(header, [], status, map[], map[200 := v, 210 := dev, 800 := d]);
      && cfg.Keys == {1, 200, 210, 800, 999}
      && cfg[1] == header && cfg[200] == v && cfg[210] == dev && cfg[800] == d && cfg[999] == status
  {
    assert AddressLines([]) == map[];
  }

  /** A virtual access interface on VLAN 100 ("guests") whose parent is
      labelled `trunk0` and which has no address, cable or wireless link:
      the VLAN lines sit between the header and the status, in key order
      200, 210, 800. */
  lemma VirtualAccessInterface(snap: Snapshot, device: Device, iface: Interface)
    requires iface == Vlan100()
    requires snap == Snapshot(map[], map[2 := iface, 3 := Trunk0()], map[7 := VLAN(7, 100, "guests")], map[], [], [])
    ensures RunDefined(snap, device, iface)
    ensures var lines := Lines(RenderedConfig(snap, device, iface));
      && |lines| == 5 && lines[0] == "# /etc/hostname.vlan100"
      && lines[1] == "vlan 100" && lines[2] == "vlandev trunk0"
      && lines[3] == "description \"guests\"" && lines[4] == "up"
  {
    Vlan100Basics(iface);
    Vlan100Lines(snap, iface);
    assert InterfaceFragments(snap, iface) == [];
    assert LinkLines(snap, device, iface) == map[];
    AssembledVlanOnly("# /etc/hostname.vlan100", "up", "vlan 100", "vlandev trunk0", "description \"guests\"");
    FiveLines(RenderedConfig(snap, device, iface), "# /etc/hostname.vlan100", "vlan 100", "vlandev trunk0",
              "description \"guests\"", "up");
  }
}
