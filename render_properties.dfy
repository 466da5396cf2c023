/** What the text `run` renders looks like: where the header, the address
    lines and the status line end up, which description wins at key 800, and
    when VLAN lines appear. Every lemma is about `RenderedConfig`, the map that
    `InterfaceConfig.Run` emits. */
module RenderProperties {
  import opened Text
  import opened Inventory
  import opened Assembler
  import opened InterfaceConfig

  /** The fixed keys the link and VLAN steps may write. */
  predicate FixedKeys(link: Config, vlan: Config) {
    link.Keys <= {500, 800} && vlan.Keys <= {200, 210, 800}
  }

  /** The link and VLAN steps write only fixed keys. The second clause is an
      unfolding step: it puts `RenderedConfig` in the `Assemble` form that
      the generic lemmas below take. */
  lemma StepsWriteFixedKeys(snap: Snapshot, device: Device, iface: Interface)
    requires RunDefined(snap, device, iface)
    ensures FixedKeys(LinkLines(snap, device, iface), VlanLines(snap, iface))
    ensures RenderedConfig(snap, device, iface) ==
      Assemble(Header(iface), InterfaceFragments(snap, iface), InterfaceStatus(iface.enabled),
               LinkLines(snap, device, iface), VlanLines(snap, iface))
  {
  }

  /** The header sits at key 1 and the status at 999; every other key is at
      least 10, and with at most 99 addresses at most 999. */
  lemma LayoutBounds(header: string, frags: seq<string>, status: string, link: Config, vlan: Config)
    requires FixedKeys(link, vlan)
    ensures var cfg := Assemble(header, frags, status, link, vlan);
      && 1 in cfg && cfg[1] == header
      && 999 in cfg && cfg[999] == status
      && (forall k :: k in cfg ==> 1 <= k)
      && (|frags| <= 99 ==> forall k :: k in cfg ==> k <= 999)
  {
  }

  /** The header `# /etc/hostname.<label>` is the first line: every other
      key is at least 10. */
  lemma HeaderIsFirstLine(snap: Snapshot, device: Device, iface: Interface)
    requires RunDefined(snap, device, iface)
    ensures var lines := Lines(RenderedConfig(snap, device, iface));
      |lines| > 0 && lines[0] == Header(iface)
    ensures IsPrefix(Header(iface), Emit(RenderedConfig(snap, device, iface)))
  {
    var cfg := RenderedConfig(snap, device, iface);
    StepsWriteFixedKeys(snap, device, iface);
    LayoutBounds(Header(iface), InterfaceFragments(snap, iface), InterfaceStatus(iface.enabled),
                 LinkLines(snap, device, iface), VlanLines(snap, iface));
    FirstLineIsLeastKey(cfg, 1);
  }

  /** With at most 99 fragments the status at key 999 is the greatest key. */
  lemma AssembledStatusLast(header: string, frags: seq<string>, status: string, link: Config, vlan: Config)
    requires FixedKeys(link, vlan)
    requires |frags| <= 99
    ensures var cfg := Assemble(header, frags, status, link, vlan);
      && |Lines(cfg)| > 1 && Lines(cfg)[|Lines(cfg)| - 1] == status
      && Emit(cfg) == Join(Lines(cfg)[..|Lines(cfg)| - 1], "\n") + "\n" + status
  {
    var cfg := Assemble(header, frags, status, link, vlan);
    LayoutBounds(header, frags, status, link, vlan);
    assert {1, 999} <= cfg.Keys;
    CardMono({1, 999}, cfg.Keys);
    LastLineIsGreatestKey(cfg, 999);
  }

  /** With at most 99 addresses on the interface, every address key is at
      most 990, so the status line (key 999) is the last line. */
  lemma StatusIsLastLine(snap: Snapshot, device: Device, iface: Interface)
    requires RunDefined(snap, device, iface)
    requires |InterfaceFragments(snap, iface)| <= 99
    ensures var cfg := RenderedConfig(snap, device, iface);
      && |Lines(cfg)| > 1 && Lines(cfg)[|Lines(cfg)| - 1] == InterfaceStatus(iface.enabled)
      && Emit(cfg) == Join(Lines(cfg)[..|Lines(cfg)| - 1], "\n") + "\n" + InterfaceStatus(iface.enabled)
  {
    StepsWriteFixedKeys(snap, device, iface);
    AssembledStatusLast(Header(iface), InterfaceFragments(snap, iface), InterfaceStatus(iface.enabled),
                        LinkLines(snap, device, iface), VlanLines(snap, iface));
  }

  lemma CardMono(a: set<int>, b: set<int>)
    requires a <= b
    ensures |a| <= |b|
  {
    assert b == a + (b - a);
  }

  /** An address key that no later step writes keeps its fragment. */
  lemma AssembledAddress(header: string, frags: seq<string>, status: string, link: Config, vlan: Config, i: int)
    requires FixedKeys(link, vlan)
    requires 1 <= i <= |frags| && 10 * i != 999
    requires 10 * i !in link && 10 * i !in vlan
    ensures var cfg := Assemble(header, frags, status, link, vlan);
      10 * i in cfg && cfg[10 * i] == frags[i - 1]
  {
    assert 10 * i in AddressLines(frags);
  }

  /** Past 99 fragments the hundredth sits at key 1000, after the status. */
  lemma AssembledPastNinetyNine(header: string, frags: seq<string>, status: string, link: Config, vlan: Config, i: int)
    requires FixedKeys(link, vlan)
    requires 100 <= i <= |frags|
    ensures var cfg := Assemble(header, frags, status, link, vlan);
      var ks := SortedKeys(cfg.Keys);
      && 999 in cfg && 10 * i in cfg && cfg[10 * i] == frags[i - 1]
      && exists p, q :: 0 <= p < q < |Lines(cfg)| && ks[p] == 999 && ks[q] == 10 * i
           && Lines(cfg)[p] == cfg[999] && Lines(cfg)[q] == cfg[10 * i]
  {
    var cfg := Assemble(header, frags, status, link, vlan);
    assert 10 * i !in link && 10 * i !in vlan;
    AssembledAddress(header, frags, status, link, vlan, i);
    assert 999 in cfg;
    LinesFollowKeyOrder(cfg, 999, 10 * i);
  }

  /** Without the bound the status line is not last: from the hundredth
      recognized address on, each address line (key 1000, 1010, ...) comes
      after it. */
  lemma StatusNotLastPastNinetyNine(snap: Snapshot, device: Device, iface: Interface, i: int)
    requires RunDefined(snap, device, iface)
    requires 100 <= i <= |InterfaceFragments(snap, iface)|
    ensures var cfg := RenderedConfig(snap, device, iface);
      var ks := SortedKeys(cfg.Keys);
      && 999 in cfg && 10 * i in cfg && cfg[10 * i] == InterfaceFragments(snap, iface)[i - 1]
      && exists p, q :: 0 <= p < q < |Lines(cfg)| && ks[p] == 999 && ks[q] == 10 * i
           && Lines(cfg)[p] == cfg[999] && Lines(cfg)[q] == cfg[10 * i]
  {
    StepsWriteFixedKeys(snap, device, iface);
    AssembledPastNinetyNine(Header(iface), InterfaceFragments(snap, iface), InterfaceStatus(iface.enabled),
                            LinkLines(snap, device, iface), VlanLines(snap, iface), i);
  }

  /** The i-th recognized address (from 1) is the line at key 10 * i unless
      a later step writes that key too. */
  lemma AddressLineAt(snap: Snapshot, device: Device, iface: Interface, i: int)
    requires RunDefined(snap, device, iface)
    requires 1 <= i <= |InterfaceFragments(snap, iface)|
    requires 10 * i !in LinkLines(snap, device, iface) && 10 * i !in VlanLines(snap, iface)
    ensures var cfg := RenderedConfig(snap, device, iface);
      10 * i in cfg && cfg[10 * i] == InterfaceFragments(snap, iface)[i - 1]
  {
    StepsWriteFixedKeys(snap, device, iface);
    AssembledAddress(Header(iface), InterfaceFragments(snap, iface), InterfaceStatus(iface.enabled),
                     LinkLines(snap, device, iface), VlanLines(snap, iface), i);
  }

  /** With fewer than 20 recognized addresses none is overwritten: each is at
      its own key, in input order. */
  lemma AddressesKeepTheirKeys(snap: Snapshot, device: Device, iface: Interface)
    requires RunDefined(snap, device, iface)
    requires |InterfaceFragments(snap, iface)| < 20
    ensures var cfg := RenderedConfig(snap, device, iface);
      forall i :: 1 <= i <= |InterfaceFragments(snap, iface)| ==>
        10 * i in cfg && cfg[10 * i] == InterfaceFragments(snap, iface)[i - 1]
  {
    StepsWriteFixedKeys(snap, device, iface);
    AssembledAddressesKept(Header(iface), InterfaceFragments(snap, iface), InterfaceStatus(iface.enabled),
                           LinkLines(snap, device, iface), VlanLines(snap, iface));
  }

  /** Below key 200 no later step writes, so every fragment keeps its key. */
  lemma AssembledAddressesKept(header: string, frags: seq<string>, status: string, link: Config, vlan: Config)
    requires FixedKeys(link, vlan)
    requires |frags| < 20
    ensures var cfg := Assemble(header, frags, status, link, vlan);
      forall i :: 1 <= i <= |frags| ==> 10 * i in cfg && cfg[10 * i] == frags[i - 1]
  {
    var cfg := Assemble(header, frags, status, link, vlan);
    forall i | 1 <= i <= |frags| ensures 10 * i in cfg && cfg[10 * i] == frags[i - 1] {
      AssembledAddress(header, frags, status, link, vlan, i);
    }
  }

  /** The VLAN writes come last and the link writes before them: each wins
      on the keys it writes. */
  lemma AssembledLateWrites(header: string, frags: seq<string>, status: string, link: Config, vlan: Config, k: int)
    ensures var cfg := Assemble(header, frags, status, link, vlan);
      && (k in vlan ==> k in cfg && cfg[k] == vlan[k])
      && (k !in vlan && k in link ==> k in cfg && cfg[k] == link[k])
  {
  }

  /** The fixed keys collide with address keys: on a VLAN interface with 20
      or more recognized addresses, key 200 holds the `vlan` line, not the
      twentieth address. */
  lemma VlanLineReplacesTwentiethAddress(snap: Snapshot, device: Device, iface: Interface)
    requires RunDefined(snap, device, iface)
    requires VlanBranch(iface)
    requires |InterfaceFragments(snap, iface)| >= 20
    ensures var cfg := RenderedConfig(snap, device, iface);
      && 200 in AddressLines(InterfaceFragments(snap, iface)) && 200 in cfg
      && cfg[200] == "vlan " + IntToString(snap.vlans[iface.untaggedVlanId.value].vid)
      && cfg[200] != InterfaceFragments(snap, iface)[19]
  {
    var frags := InterfaceFragments(snap, iface);
    assert 10 * 20 in AddressLines(frags);
    var v := "vlan " + IntToString(snap.vlans[iface.untaggedVlanId.value].vid);
    var vlan := VlanLines(snap, iface);
    assert vlan[200] == v;
    StepsWriteFixedKeys(snap, device, iface);
    AssembledLateWrites(Header(iface), frags, InterfaceStatus(iface.enabled), LinkLines(snap, device, iface), vlan, 200);
    FirstCharsDiffer(v, frags[19]);
  }

  lemma FirstCharsDiffer(v: string, f: string)
    requires IsPrefix("vlan", v) && IsPrefix("inet", f)
    ensures v != f
  {
    assert v[0] == 'v' && f[0] == 'i';
  }

  lemma NotInet(s: string)
    requires |s| == 0 || s[0] != 'i'
    ensures !IsPrefix("inet", s)
  {
    if |s| >= 4 {
      assert s[..4][0] == s[0];
    }
  }

  /** A fixed key within the address range holds the later step's line,
      which is not an address fragment. */
  lemma AssembledFixedKey(header: string, frags: seq<string>, status: string, link: Config, vlan: Config, i: int)
    requires FixedKeys(link, vlan)
    requires forall j :: 0 <= j < |frags| ==> IsPrefix("inet", frags[j])
    requires forall k :: k in link ==> !IsPrefix("inet", link[k])
    requires forall k :: k in vlan ==> !IsPrefix("inet", vlan[k])
    requires 10 * i in link || 10 * i in vlan
    requires i <= |frags|
    ensures var cfg := Assemble(header, frags, status, link, vlan);
      && 1 <= i && 10 * i in AddressLines(frags) && 10 * i in cfg
      && cfg[10 * i] == (if 10 * i in vlan then vlan[10 * i] else link[10 * i])
      && cfg[10 * i] != frags[i - 1]
  {
    assert 20 <= i;
    assert 10 * i in AddressLines(frags);
    AssembledLateWrites(header, frags, status, link, vlan, 10 * i);
    assert IsPrefix("inet", frags[i - 1]);
  }

  /** No line the link or VLAN step writes starts with "inet". */
  lemma StepLinesAreNotInet(snap: Snapshot, device: Device, iface: Interface)
    requires RunDefined(snap, device, iface)
    ensures var link := LinkLines(snap, device, iface);
      forall k :: k in link ==> !IsPrefix("inet", link[k])
    ensures var vlan := VlanLines(snap, iface);
      forall k :: k in vlan ==> !IsPrefix("inet", vlan[k])
  {
    var link, vlan := LinkLines(snap, device, iface), VlanLines(snap, iface);
    forall k | k in link ensures !IsPrefix("inet", link[k]) {
      NotInet(link[k]);
    }
    forall k | k in vlan ensures !IsPrefix("inet", vlan[k]) {
      NotInet(vlan[k]);
    }
  }

  /** Every fixed key the link or VLAN step writes, once there are enough
      addresses to reach it (key 200 from the 20th, 210 from the 21st, 500
      from the 50th, 800 from the 80th), holds that step's line: the i-th
      address line, at key 10 * i, is lost. */
  lemma FixedKeyReplacesAddress(snap: Snapshot, device: Device, iface: Interface, i: int)
    requires RunDefined(snap, device, iface)
    requires 10 * i in LinkLines(snap, device, iface) || 10 * i in VlanLines(snap, iface)
    requires i <= |InterfaceFragments(snap, iface)|
    ensures var cfg, frags := RenderedConfig(snap, device, iface), InterfaceFragments(snap, iface);
      var link, vlan := LinkLines(snap, device, iface), VlanLines(snap, iface);
      && 1 <= i && 10 * i in AddressLines(frags) && 10 * i in cfg
      && cfg[10 * i] == (if 10 * i in vlan then vlan[10 * i] else link[10 * i])
      && cfg[10 * i] != frags[i - 1]
  {
    StepsWriteFixedKeys(snap, device, iface);
    StepLinesAreNotInet(snap, device, iface);
    AssembledFixedKey(Header(iface), InterfaceFragments(snap, iface), InterfaceStatus(iface.enabled),
                      LinkLines(snap, device, iface), VlanLines(snap, iface), i);
  }

  /** When a cable or wireless link and the VLAN branch both apply, key 800
      holds the VLAN's description: the VLAN step runs later. */
  lemma VlanDescriptionWins(snap: Snapshot, device: Device, iface: Interface)
    requires RunDefined(snap, device, iface)
    requires VlanBranch(iface)
    requires Truthy(iface.cableId) || Truthy(iface.wirelessLinkId)
    ensures 800 in LinkLines(snap, device, iface)
    ensures var cfg := RenderedConfig(snap, device, iface);
      800 in cfg && cfg[800] == DescriptionLine(snap.vlans[iface.untaggedVlanId.value].name)
  {
    var vlan := VlanLines(snap, iface);
    assert vlan[800] == DescriptionLine(snap.vlans[iface.untaggedVlanId.value].name);
    StepsWriteFixedKeys(snap, device, iface);
    AssembledLateWrites(Header(iface), InterfaceFragments(snap, iface), InterfaceStatus(iface.enabled),
                        LinkLines(snap, device, iface), vlan, 800);
  }

  /** In the VLAN branch keys 200, 210 and 800 hold the `vlan`, `vlandev`
      and `description` lines, whatever else the interface has: the VLAN
      step is the last writer. */
  lemma VlanBranchLines(snap: Snapshot, device: Device, iface: Interface)
    requires RunDefined(snap, device, iface)
    requires VlanBranch(iface)
    ensures var cfg := RenderedConfig(snap, device, iface);
      var vlan := snap.vlans[iface.untaggedVlanId.value];
      && 200 in cfg && cfg[200] == "vlan " + IntToString(vlan.vid)
      && 210 in cfg && cfg[210] == "vlandev " + PyStr(snap.interfaces[iface.parentId.value].ifLabel)
      && 800 in cfg && cfg[800] == DescriptionLine(vlan.name)
  {
    var header, frags, status := Header(iface), InterfaceFragments(snap, iface), InterfaceStatus(iface.enabled);
    var link, vlan := LinkLines(snap, device, iface), VlanLines(snap, iface);
    StepsWriteFixedKeys(snap, device, iface);
    AssembledLateWrites(header, frags, status, link, vlan, 200);
    AssembledLateWrites(header, frags, status, link, vlan, 210);
    AssembledLateWrites(header, frags, status, link, vlan, 800);
  }

  /** Outside the VLAN branch a cabled interface is described by its cable
      peer, and no nwid line is written for it. */
  lemma CableDescriptionAt800(snap: Snapshot, device: Device, iface: Interface)
    requires RunDefined(snap, device, iface)
    requires Truthy(iface.cableId) && !VlanBranch(iface)
    ensures var cfg := RenderedConfig(snap, device, iface);
      800 in cfg && cfg[800] == DescriptionLine(PyStr(CablePeer(snap, iface.cableId.value, iface.cableEnd)))
    ensures 500 !in LinkLines(snap, device, iface)
  {
    var link := LinkLines(snap, device, iface);
    var peer := CablePeer(snap, iface.cableId.value, iface.cableEnd);
    assert link == map[800 := DescriptionLine(PyStr(peer))];
    assert VlanLines(snap, iface) == map[];
    StepsWriteFixedKeys(snap, device, iface);
    AssembledLateWrites(Header(iface), InterfaceFragments(snap, iface), InterfaceStatus(iface.enabled),
                        link, map[], 800);
  }

  /** A cable whose terminations all sit on this interface's end has no peer:
      the description line reads `description "None"`. */
  lemma CableWithoutPeerIsNone(snap: Snapshot, device: Device, iface: Interface)
    requires RunDefined(snap, device, iface)
    requires Truthy(iface.cableId) && !VlanBranch(iface)
    requires AllOnEnd(TerminationsOf(snap.terminations, iface.cableId.value), iface.cableEnd)
    ensures var cfg := RenderedConfig(snap, device, iface);
      800 in cfg && cfg[800] == "description \"None\""
  {
    var peer := CablePeer(snap, iface.cableId.value, iface.cableEnd);
    assert peer.None?;
    CableDescriptionAt800(snap, device, iface);
    assert DescriptionLine(PyStr(peer)) == "description \"None\"";
  }

  /** A wireless-linked interface without a cable gets the link's nwid/wpakey
      line at key 500, and the peer's description at 800 unless the VLAN
      branch overrides it. */
  lemma WirelessLines(snap: Snapshot, device: Device, iface: Interface)
    requires RunDefined(snap, device, iface)
    requires !Truthy(iface.cableId) && Truthy(iface.wirelessLinkId)
    ensures var cfg := RenderedConfig(snap, device, iface);
      var link := snap.links[iface.wirelessLinkId.value];
      500 in cfg && cfg[500] == "nwid \"" + link.ssid + "\" wpakey \"" + link.authPsk + "\""
    ensures !VlanBranch(iface) ==>
      var peer := PeerEndpoint(snap.links[iface.wirelessLinkId.value], device.id);
      var cfg := RenderedConfig(snap, device, iface);
      800 in cfg && cfg[800] == DescriptionLine(PeerDescription(snap, peer.deviceId, peer.interfaceId))
  {
    var link := LinkLines(snap, device, iface);
    var data := WirelessTerminations(snap, iface.wirelessLinkId.value, device.id);
    assert link == map[500 := data.wireless, 800 := DescriptionLine(data.description)];
    var vlan := VlanLines(snap, iface);
    StepsWriteFixedKeys(snap, device, iface);
    AssembledLateWrites(Header(iface), InterfaceFragments(snap, iface), InterfaceStatus(iface.enabled),
                        link, vlan, 500);
    AssembledLateWrites(Header(iface), InterfaceFragments(snap, iface), InterfaceStatus(iface.enabled),
                        link, vlan, 800);
  }

  lemma NotVlan(s: string)
    requires |s| == 0 || s[0] != 'v'
    ensures !IsPrefix("vlan", s)
  {
    if |s| >= 4 {
      assert s[..4][0] == s[0];
    }
  }

  /** Without VLAN writes, no line starts with "vlan" unless one of the
      pieces did. */
  lemma AssembledWithoutVlanLines(header: string, frags: seq<string>, status: string, link: Config)
    requires !IsPrefix("vlan", header) && !IsPrefix("vlan", status)
    requires forall j :: 0 <= j < |frags| ==> !IsPrefix("vlan", frags[j])
    requires forall k :: k in link ==> !IsPrefix("vlan", link[k])
    ensures var cfg := Assemble(header, frags, status, link, map[]);
      forall k :: k in cfg ==> !IsPrefix("vlan", cfg[k])
  {
    var cfg := Assemble(header, frags, status, link, map[]);
    var addr := AddressLines(frags);
    forall k | k in cfg ensures !IsPrefix("vlan", cfg[k]) {
      if k !in link && k != 999 && k in addr {
        assert cfg[k] == addr[k];
        assert addr[k] in frags;
      }
    }
  }

  /** The cable and wireless steps write only "description" and "nwid"
      lines. */
  lemma LinkLinesAreNotVlan(snap: Snapshot, device: Device, iface: Interface)
    requires RunDefined(snap, device, iface)
    ensures var link := LinkLines(snap, device, iface);
      forall k :: k in link ==> !IsPrefix("vlan", link[k])
  {
    var link := LinkLines(snap, device, iface);
    forall k | k in link ensures !IsPrefix("vlan", link[k]) {
      NotVlan(link[k]);
    }
  }

  /** A line starting with "vlan" (the `vlan` and `vlandev` lines) appears
      exactly when the interface takes the VLAN branch. */
  lemma VlanLinesExactlyInVlanBranch(snap: Snapshot, device: Device, iface: Interface)
    requires RunDefined(snap, device, iface)
    ensures var cfg := RenderedConfig(snap, device, iface);
      (exists k :: k in cfg && IsPrefix("vlan", cfg[k])) <==> VlanBranch(iface)
  {
    var cfg := RenderedConfig(snap, device, iface);
    if VlanBranch(iface) {
      assert cfg[200] == VlanLines(snap, iface)[200];
      assert IsPrefix("vlan", cfg[200]);
    } else {
      var frags := InterfaceFragments(snap, iface);
      forall j | 0 <= j < |frags| ensures !IsPrefix("vlan", frags[j]) {
        assert IsPrefix("inet", frags[j]);
        NotVlan(frags[j]);
      }
      NotVlan(Header(iface));
      NotVlan(InterfaceStatus(iface.enabled));
      LinkLinesAreNotVlan(snap, device, iface);
      assert VlanLines(snap, iface) == map[];
      AssembledWithoutVlanLines(Header(iface), frags, InterfaceStatus(iface.enabled), LinkLines(snap, device, iface));
    }
  }

  /** A type containing "ieee802.11" never gets `vlan` or `vlandev` lines. */
  lemma WirelessTypeHasNoVlanLines(snap: Snapshot, device: Device, iface: Interface)
    requires RunDefined(snap, device, iface)
    requires Contains(iface.ifType, "ieee802.11")
    ensures var cfg := RenderedConfig(snap, device, iface);
      forall k :: k in cfg ==> !IsPrefix("vlan", cfg[k])
  {
    VlanLinesExactlyInVlanBranch(snap, device, iface);
  }
}
