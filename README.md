# hostname.if renderer — a Dafny model

This project models the interface-configuration renderer of the NetBox
script `interface_config.py`. The renderer takes one interface of one device
and writes the text of an OpenBSD `/etc/hostname.<if>` file for it. It uses
the interface's addresses, its cable or wireless peer and, for a virtual
access interface, its VLAN and parent interface.

The renderer keeps a dictionary `config` from integer priority keys to lines:

| key | line |
|---|---|
| 1 | `# /etc/hostname.<label>` |
| 10, 20, 30, … | one `inet`/`inet6` line per recognized address, in query order |
| 200, 210 | `vlan <vid>`, `vlandev <parent label>` |
| 500 | `nwid "<ssid>" wpakey "<psk>"` for a wireless link |
| 800 | `description "<…>"` (cable peer, wireless peer or VLAN name) |
| 999 | `up`, or the empty string for a disabled interface |

Writes to a key that already holds a line replace it. The file is the values
in ascending key order, joined with newlines.

Files:

- `text.dfy` (module `Text`): the Python string operations the renderer uses.
  These are substring membership (`in`), decimal `str(int)` and `'\n'.join`.
- `inventory.dfy` (module `Inventory`): the NetBox records the renderer reads,
  as immutable values (`Device`, `Interface`, `IPAddress`, `CableTermination`,
  `WirelessLink`, `VLAN`). A `Snapshot` holds them. It has maps from id to
  record for the `.objects.get(id=…)` lookups, and sequences in table order
  for the `.objects.filter(…)` queries.
- `assembler.dfy` (module `Assembler`): the sorted join of the `config` map.
- `interface_config.dfy` (module `InterfaceConfig`): the helpers of the script
  and `run`. Code that loops or updates `config` step by step is a `method`
  with loop invariants. Each such method is proved equal to a specification
  function: `InterfaceAddresses` = `Fragments`, `GetCableTerminations` =
  `CablePeer`, `PlaceAddresses` = `AddressLines`, `Run` = `Emit(RenderedConfig(…))`.
  The pure helpers are functions.
- `render_properties.dfy` (module `RenderProperties`): what the rendered file
  looks like. It covers header first, status last, where each address goes,
  which description wins at key 800, and when `vlan` lines appear.
- `scenarios.dfy` (module `Scenarios`): three complete renders of small
  inventories, worked out line by line.

Points of the code's behaviour the model keeps exactly:

- Address keys are 10, 20, 30, …, one per recognized address.
- The header uses the interface's label only, never its name.
- The only lines written are the ones in the key table above.
- The VLAN step runs after the cable/wireless step and writes key 800 last.
  So on an interface that has both, the VLAN description replaces the
  cable or wireless description.
- `vlandev` uses the parent's label only, never its name.

Python's f-string rendering of `None` is modelled as well. The text is
`"None"` in three places: the header of an unlabelled interface, `vlandev`
of an unlabelled parent, and the description of a cable with no termination
on the other end. `if interface.cable_id:` and `if interface.wireless_link_id:`
test truthiness, so an id of `0` counts as absent (`Inventory.Truthy`).
`if interface.label:` treats an empty label as absent
(`InterfaceConfig.HasLabel`). The line at key 800 is always
`description "<…>"` around the chosen text (`InterfaceConfig.DescriptionLine`).

The fixed keys share the address key space. This is proved, not corrected:

- Each `vlan`, `vlandev`, `nwid` or `description` line the interface gets
  (keys 200, 210, 500, 800) replaces address line 20, 21, 50 or 80 once
  there are that many recognized addresses (`FixedKeyReplacesAddress`;
  `VlanLineReplacesTwentiethAddress` for key 200).
- From the 100th recognized address on, every address line (keys 1000,
  1010, …) comes after the status line (`StatusNotLastPastNinetyNine`).
  With at most 99 the status line is last (`StatusIsLastLine`).

## Model

| member | source | states |
|---|---|---|
| `InterfaceConfig.PyStr` | interface_config.py:86 | an f-string prints a present value as itself and a missing one (`None`) as `None` |
| `InterfaceConfig.InterfaceStatus` | interface_config.py:23-27 | the status is `"up"` exactly when the flag is true, and `""` exactly when it is false |
| `InterfaceConfig.AddressFragment` | interface_config.py:34-39 | an address yields a fragment exactly when it is dhcp or its text has a `.` or `:`; every fragment starts with `inet`; a dhcp address yields `inet autoconf`; otherwise text with a `.` yields `inet <text>`, and text with a `:` but no `.` yields `inet6 <text>` |
| `InterfaceConfig.DhcpIgnoresText` | interface_config.py:34-35 | a dhcp address renders `inet autoconf` whatever its text, because the status test comes before the `.`/`:` tests |
| `InterfaceConfig.AssignedTo` | interface_config.py:31 | the address query keeps only addresses assigned to the interface, each from the table, and never more than the table holds |
| `InterfaceConfig.AssignedToFollowsTable` | interface_config.py:31 | the j-th result of the address query is the j-th address of the table assigned to the interface: each once, in table order, and no assigned address is dropped |
| `InterfaceConfig.Fragments` | interface_config.py:29-40 | there are never more fragments than addresses, and each one is an `inet`/`inet6` line |
| `InterfaceConfig.FragmentsFollowInput` | interface_config.py:29-40 | the j-th fragment is the fragment of the j-th recognized address; recognized addresses keep their input order, each appears once, and unrecognized ones leave nothing |
| `InterfaceConfig.FragmentCount` | interface_config.py:29-40 | the number of fragments equals the number of addresses that are dhcp or contain `.` or `:` |
| `InterfaceConfig.InterfaceAddresses` | interface_config.py:29-40 | the append loop over the interface's addresses returns exactly `Fragments` of those addresses |
| `InterfaceConfig.TerminationsOf` | interface_config.py:47 | the termination query keeps only terminations of the given cable, from the table |
| `InterfaceConfig.TerminationsFollowTable` | interface_config.py:47 | the j-th result of the termination query is the j-th termination of the cable in the table: each once, in table order, and none of the cable's terminations is dropped |
| `InterfaceConfig.FirstOpposite` | interface_config.py:49-50 | the scan finds the first termination whose end differs from ours; it finds none exactly when every termination is on our end |
| `InterfaceConfig.LabelOrName` | interface_config.py:53-54 | the peer interface is shown by its label when the label is non-empty, and by its name otherwise |
| `InterfaceConfig.PeerDescription` | interface_config.py:51-55 | a peer is described as its device's name, a vertical bar, and its interface's label, or the interface's name when the label is missing or empty |
| `InterfaceConfig.CablePeer` | interface_config.py:46-55 | the cable peer is absent exactly when no termination is on the other end; otherwise it describes the first termination on the other end: its device's name, a vertical bar, and its interface's label (or name when the label is empty) |
| `InterfaceConfig.GetCableTerminations` | interface_config.py:46-55 | the loop with early return gives the same result as `CablePeer` |
| `InterfaceConfig.PeerEndpoint` | interface_config.py:60-65 | the peer is endpoint B when endpoint A's device is the given device, and endpoint A otherwise |
| `InterfaceConfig.PeerOfPeer` | interface_config.py:60-65 | on a link between two different devices, the peer sits on the other device, and asking from the peer's device leads back to the first device |
| `InterfaceConfig.WirelessTerminations` | interface_config.py:57-72 | the result is the link's `nwid "<ssid>" wpakey "<psk>"` line and a description of the peer endpoint: its device's name, a vertical bar, and its interface's label (or name when the label is empty) |
| `InterfaceConfig.ParentInterface` | interface_config.py:42-44 | the parent lookup returns the stored interface whose id is the parent id |
| `InterfaceConfig.GetVlanData` | interface_config.py:74-79 | the triple is the VLAN's vid, the parent's label (not its name) and the VLAN's name |
| `InterfaceConfig.VlandevIgnoresName` | interface_config.py:76 | renaming the parent never changes the VLAN data, and a parent without a label gives `vlandev None` |
| `InterfaceConfig.AddressLines` | interface_config.py:89-92 | the i-th fragment (from 1) is at key 10·i; every key lies between 10 and 10·n and holds one of the fragments |
| `InterfaceConfig.AddressLinesExactly` | interface_config.py:89-92 | every key the `position` loop writes is 10·i for some i from 1 to n, and holds the i-th fragment |
| `InterfaceConfig.PlaceAddresses` | interface_config.py:89-92 | the `position` loop writes exactly `AddressLines` over the existing config, with later writes winning |
| `InterfaceConfig.LinkLines` | interface_config.py:97-117 | the cable/wireless step writes only keys 500 and 800, and writes 800 exactly when a cable id or a wireless link id is truthy; with a cable it writes only 800, as the description of the cable peer; with a wireless link and no cable it writes the link's `nwid` line at 500 and the peer's description at 800; when neither id is truthy it writes nothing |
| `InterfaceConfig.LinkUpdate` | interface_config.py:97-117 | the cable/wireless step of `run` writes the lines `LinkLines` gives |
| `InterfaceConfig.VlanLines` | interface_config.py:118-128 | the VLAN step writes keys 200, 210 and 800 exactly when the type lacks `ieee802.11` and contains `virtual` and the mode contains `access`, and nothing otherwise; the lines are `vlan <vid>`, `vlandev <parent label>` and the VLAN name's description |
| `InterfaceConfig.VlanUpdate` | interface_config.py:118-128 | the VLAN step of `run` writes the lines `VlanLines` gives |
| `InterfaceConfig.Header` | interface_config.py:86-87 | the first line is `# /etc/hostname.` followed by the interface's label as an f-string renders it |
| `InterfaceConfig.HeaderUsesLabel` | interface_config.py:86-87 | renaming the interface never changes the header; a label gives `# /etc/hostname.<label>` and a missing label `# /etc/hostname.None` |
| `InterfaceConfig.Run` | interface_config.py:81-130 | `run`'s step-by-step updates of `config` produce `Emit(RenderedConfig(…))`, so the text depends only on the inputs |
| `Text.ContainsAt` | interface_config.py:118-120 | the model of Python's substring `in` holds exactly when the substring occurs at some index |
| `Text.IntToString` | interface_config.py:124 | the decimal rendering of the vid starts with `-` exactly for a negative vid, is otherwise made of digits without a leading zero (at least one digit), and reads back as the vid |
| `Text.NatToStringValue` | interface_config.py:124 | the digits of a natural number read back as that number |
| `Text.Join` | interface_config.py:130 | joining no lines gives the empty text; otherwise the text is as long as the lines together plus one separator fewer than there are lines |
| `Text.JoinFirst` | interface_config.py:130 | the joined text starts with the first line, followed by a newline when more lines come |
| `Text.JoinLast` | interface_config.py:130 | the joined text ends with a newline and the last line |
| `Text.SplitJoin` | interface_config.py:130 | splitting the newline-joined lines at the newlines gives the lines back, when no line holds a newline |
| `Assembler.SortedKeys` | interface_config.py:130 | `sorted` lists every key once, nothing else, in strictly ascending order |
| `Assembler.AscendingUnique` | interface_config.py:130 | two strictly ascending listings of the same keys are equal, so the line order is fully determined by the keys |
| `Assembler.SortedKeysAre` | interface_config.py:130 | any strictly ascending listing of exactly the keys is the order the file uses |
| `Assembler.Lines` | interface_config.py:130 | the list of lines joined into the file has exactly one entry per distinct key written (the text has that many lines when no value holds a newline) |
| `Assembler.LineAt` | interface_config.py:130 | the i-th line is the value of the i-th key in ascending order |
| `Assembler.Emit` | interface_config.py:130 | the text is the values, one per key in ascending order, joined by newlines whatever they hold; when no value holds a newline, splitting the text at its newlines gives those values back |
| `Assembler.LinesFollowKeyOrder` | interface_config.py:130 | of two keys, the smaller key sits earlier in the sorted keys and its line comes before the larger key's line |
| `Assembler.FirstLineIsLeastKey` | interface_config.py:130 | the least key's line is the first line, and the text starts with it |
| `Assembler.LastLineIsGreatestKey` | interface_config.py:130 | the greatest key's line is the last line, and the text ends with a newline and that line |
| `Assembler.OverwriteReplacesLine` | interface_config.py:91 | writing a key already present keeps the set of keys and the number of lines the same, replaces that key's line with the new value, and leaves every other line as it was |
| `RenderProperties.StepsWriteFixedKeys` | interface_config.py:97-128 | the link and VLAN steps write only the fixed keys 200, 210, 500 and 800 |
| `RenderProperties.LayoutBounds` | interface_config.py:86-94 | key 1 holds the header and key 999 the status; every key is at least 1, and with at most 99 fragments at most 999 |
| `RenderProperties.HeaderIsFirstLine` | interface_config.py:86-87 | `# /etc/hostname.<label>` is the first line of every rendered file |
| `RenderProperties.StatusIsLastLine` | interface_config.py:93-94 | with at most 99 recognized addresses on the interface, the status line is the last line and the file has at least two lines |
| `RenderProperties.StatusNotLastPastNinetyNine` | interface_config.py:89-94 | for every i from 100 to the number of recognized addresses, the i-th address line (key 10·i) comes after the status line in key order |
| `RenderProperties.AddressLineAt` | interface_config.py:89-92 | the i-th recognized address is the line at key 10·i unless the link or VLAN step writes that key |
| `RenderProperties.AddressesKeepTheirKeys` | interface_config.py:89-92 | with fewer than 20 recognized addresses, every address keeps its own line at key 10·i, in input order |
| `RenderProperties.VlanLineReplacesTwentiethAddress` | interface_config.py:122-128 | on a VLAN interface with 20 or more recognized addresses, key 200 holds the `vlan` line and the 20th address line is lost |
| `RenderProperties.FixedKeyReplacesAddress` | interface_config.py:89-128 | when the link or VLAN step writes key 10·i and there are at least i recognized addresses, key 10·i holds that step's line and not the i-th address |
| `RenderProperties.StepLinesAreNotInet` | interface_config.py:97-128 | no line the link or VLAN step writes starts with `inet` |
| `RenderProperties.VlanBranchLines` | interface_config.py:118-128 | in the VLAN branch keys 200, 210 and 800 hold `vlan <vid>`, `vlandev <parent label>` and the VLAN name's description, whatever else the interface has |
| `RenderProperties.VlanDescriptionWins` | interface_config.py:97-128 | when a cable or wireless link and the VLAN branch both apply, key 800 holds the VLAN name's description |
| `RenderProperties.CableDescriptionAt800` | interface_config.py:97-106 | outside the VLAN branch, a cabled interface's key 800 describes its cable peer, and no `nwid` line is written for it |
| `RenderProperties.CableWithoutPeerIsNone` | interface_config.py:46-55 | a cable with no termination on the other end gives the line `description "None"` |
| `RenderProperties.WirelessLines` | interface_config.py:107-117 | a wireless-linked interface without a cable has the link's `nwid`/`wpakey` line at 500, and outside the VLAN branch the peer's description at 800 |
| `RenderProperties.VlanLinesExactlyInVlanBranch` | interface_config.py:118-128 | a line starting with `vlan` appears exactly when the interface takes the VLAN branch |
| `RenderProperties.WirelessTypeHasNoVlanLines` | interface_config.py:118-119 | a type containing `ieee802.11` never gets `vlan` or `vlandev` lines |
| `Scenarios.EnabledStaticAddress` | interface_config.py:81-130 | an enabled `em0` with address 10.0.0.1 renders as `# /etc/hostname.em0`, `inet 10.0.0.1`, `up` |
| `Scenarios.DisabledDhcpAddress` | interface_config.py:81-130 | a disabled `em0` with a dhcp address renders as the header, `inet autoconf` and an empty last line |
| `Scenarios.VirtualAccessInterface` | interface_config.py:81-130 | a virtual access interface on VLAN 100 "guests" with parent label `trunk0` renders as the header, `vlan 100`, `vlandev trunk0`, `description "guests"`, `up` |

## Left out

- NetBox ORM queries (`IPAddress.objects.filter`, `CableTermination.objects.filter`, `Device.objects.get`, `Interface.objects.get`, `VLAN.objects.get`, `WirelessLink.objects.get`): these are database calls. They are lookups in a `Snapshot`. A `.get` that raises `DoesNotExist` in the source is a violated `requires`: `RunDefined`, `CableResolvable`, `WirelessResolvable` and `VlanResolvable` state which ids must resolve.
- The `Script`/`ObjectVar` form, `Meta`, the `commit` argument and `script = InterfaceDataScript`: these are UI and registration plumbing. `run`'s `data` dictionary becomes the `device` and `iface` parameters of `Run`.
- `self.log_debug(...)` and `vars(...)`: these are logging only.
- `str(address)`, `str(device)` and `str(interface)`: these are NetBox's own renderings. They are given strings in the model (`IPAddress.text`, `Device.display`, `Interface.name`). The source prints `str(interface)` only when the label is empty or missing, and then NetBox's interface rendering is its name, so the model uses the name there.
- `interface.type` or `interface.mode` being `None`: the source would raise `TypeError` at `in`. For `type` this happens on every call. For `mode` it happens only when `type` contains `virtual` and not `ieee802.11`, because the test of `mode` comes after those type tests and `and` short-circuits. Both are plain strings in the model.
- Persisting the rendered text: the script does not do it.
- `Scenarios.EnabledStaticAddress`, `Scenarios.DisabledDhcpAddress`, `Scenarios.VirtualAccessInterface`: these state the rendered lines one by one, not the newline-joined string. The join itself is `Assembler.Emit`, whose contract says that splitting the text at its newlines gives the lines back whenever no line holds a newline, as none of these does.
