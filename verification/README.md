# VeilBridge, verified

VeilBridge is the control plane of an OpenWrt router: it rewrites live routing
rules, applies configuration that undoes itself unless somebody confirms it,
builds a guest network out of firewall sections, and keeps schedules. This is a
Dafny model of the parts where a mistake leaks traffic, locks the owner out or
lets a guest in, with proofs about every input, every run and every state on the
way. `dafny verify dfyconfig.toml` checks all of it.

## What is modelled

**Leak-free policy routing.** `Kernel` is an object with a priority-ordered rule
list and tables; a lookup walks the rules, a table without a route falls through,
`suppress_prefixlength 0` discards a default-route hit and `unreachable` ends the
search. Every `ip` command may fail, and a failed one may have taken effect;
before each, anything that is not the panel's may change. The kernel keeps a
ghost record of every view it has shown, so the promise about the temporary hold
is stated for every intermediate state (`TunnelRoute`, `TunnelRouting`), read as
a statement about packets (`LeakFree`), and joined with the marking chain
(`Marking`, `RoutingRules`) and with choosing, removing and bringing back nodes
(`NodeManager`). `Daemon` runs both managers over one router and says of every
state of every run, from the first time the rules are applied, that nothing leaks.

**The apply transaction.** `Configuration.Device` is the disk: files in force,
draft, archives, one journal record, and a ghost history of all its states.
`ApplyTransaction.ApplyCoordinator` runs snapshot, commit, watchdog, confirm and
undo over it, with crashes, late timers and commits that stop half way.
`EmergencyRestore` is the offline command.

**The guest network.** `GuestRecipe` and `GuestChecks` are the recipe and the
checks, `GuestFirewall` is what a first-match firewall does with a guest's
packet, `GuestWriter` writes command by command, `GuestAgreement` shows that what
is written passes the checks, `GuestSubnet` and `GuestStaging` choose, write and
take back. `GuestReasons` says what each answer of the checks
tells, `PrivateRanges` what the recipe's lists of networks hold, `GuestAccess` what a
guest finds. `OrdinaryRouter` is a router on which all this applies, and others on
which the checks let a leak pass.

**Rule order, schedules, addresses and history.** `FirewallRules`, `Shadowing`
and `RuleOrder`; `Schedules`, `OffTimes` and `ScheduleRules`; `LanAddresses`,
`Netmasks` and `MetricsHistory`.

## What the surroundings are taken to be

- Nobody else writes tables 147 and 148 or rules on the panel's priorities, and
  nobody else's rule has a say in a marked packet before the panel's
  (`LeakFree.Quiet`, `OthersAvoidTunnel`); everything else may change at any time.
- A mark is a set of bits; an address is the number its bytes spell. The loop
  over the two address families is written out.
- `engine.Down` always stops the engine; `engine.Up` may fail. A restarted daemon
  finds no engine running, and the kernel and the stored document as they were.
- A call to the router holds its lock, and a call to a manager the manager's.
- Whatever is asked of the kernel, the disk, the stored document, the engine or the
  draft may fail. A ghost count beside each (`faults`) rises when it does, and only
  then, so what a method achieves when nothing fails is stated without its say.
- The services take up the files in force when `reload_config` works; what they have
  taken up is `Device.told`.
- No priority of the panel's holds more than eight rules (`TunnelRoute.Few`) where
  putting the rules in place is said to succeed; the source deletes eight at most.
- In the apply transaction, `trouble` becomes true only when the device has failed,
  when a process without a journal goes away while a change waits, when the clock did
  not move past the newest archive, or when a record names no archive there is.
- Each change awaiting confirmation has a token no other has had; the source takes
  the clock's nanoseconds for one.
- The draft edits files that exist, and unpacking an archive adds or replaces files
  and deletes none.
- Conditions of a firewall rule that the model does not read hold of an arbitrary
  set of packets, so each statement about every packet is one about every meaning
  of them. A packet the router itself sends comes from the empty zone. No packet
  comes from or goes to a zone called `*`.
- A rule's list of networks or messages holds of a packet when one of its words does
  (`GuestFirewall.Sensible`); a word is read as a network by `NetworkWords`.
- The address library is a parameter (`GuestChecks.Library`); all that is asked of
  it is that it reads back the one address and the one mask the writer writes.
- Strings are ASCII. A guest section's name is "guest_" and a role or a radio, and no
  radio is called like a role.
- A command of the draft that fails has changed nothing.

## Model

| member | source | states |
|---|---|---|
| KernelRouting.FirstDecider | internal/adapters/openwrt/tunnel_route.go:30-70 | a lookup is decided by the first rule, by priority, that has an opinion, and by none when none has |
| KernelRouting.PerformIsEffect | internal/adapters/openwrt/tunnel_route.go:88-96 | a command on the whole kernel is its effect on the panel's own part, whatever else the kernel holds; the kernel's own tables and first and last rules are never touched |
| KernelRouting.Kernel.Run | internal/adapters/openwrt/tunnel_route.go:88-96 | one `ip` command: when it fails its effect may or may not be there, and both views are on record; it fails only by a fault or for want of a rule to delete |
| TunnelRoute.InPlaceNow | internal/adapters/openwrt/tunnel_route.go:141-168 | without a fault yes exactly when, and with one only when, the panel's priorities hold exactly the five rules in order and the refusing table its default; reading changes nothing |
| TunnelRoute.HasHold | internal/adapters/openwrt/tunnel_route.go:235-248 | without a fault yes exactly when, and with one only when, the hold's priority holds exactly the hold; reading changes nothing |
| TunnelRoute.DeleteAll | internal/adapters/openwrt/tunnel_route.go:252-258 | at most eight deletions, of two states each; in every state on the way only rules of that priority are missing, and without a fault none of up to eight is left |
| TunnelRoute.Release | internal/adapters/openwrt/tunnel_route.go:206-221 | called only under the verified set, which stays in every state; success means no hold is left, and without a fault it succeeds |
| TunnelRoute.RaiseHold | internal/adapters/openwrt/tunnel_route.go:174-187 | refusing route, then hold; no rule of the entry state is missing in any state on the way, success means the hold refuses, and without a fault it succeeds |
| TunnelRoute.ClearWanted | internal/adapters/openwrt/tunnel_route.go:188-191 | every state of the deletions is held, and without a fault nothing but the hold is left |
| TunnelRoute.AddWanted | internal/adapters/openwrt/tunnel_route.go:192-196 | every state of the additions is held, whichever of them fail; without a fault the five rules are there in order |
| TunnelRoute.Settle | internal/adapters/openwrt/tunnel_route.go:197-202 | the hold leaves only a state in which the set has verified, and without a fault it does leave |
| TunnelRoute.Rebuild | internal/adapters/openwrt/tunnel_route.go:174-203 | whatever fails, every state keeps the entry rules or is guarded; success is the verified set without a hold, and without a fault it succeeds |
| TunnelRoute.EnsureFamily | internal/adapters/openwrt/tunnel_route.go:106-122 | the same for one family of `Ensure`, with the tunnel's table untouched |
| TunnelRoute.HoldIsSafe | internal/adapters/openwrt/tunnel_route.go:179-187 | adding the hold keeps every entry rule and starts the held phase |
| TunnelRoute.DeletingIsSafe | internal/adapters/openwrt/tunnel_route.go:188-191 | a stretch of deletions on a wanted priority stays held throughout |
| TunnelRoute.ReleasingIsSafe | internal/adapters/openwrt/tunnel_route.go:197-221 | taking the hold out under the verified set keeps every state safe |
| TunnelRoute.SettledIsSound | internal/adapters/openwrt/tunnel_route.go:100-122 | verified and without a hold, the panel's part is nothing but its own five rules |
| LeakFree.HeldRefuses | internal/adapters/openwrt/tunnel_route.go:170-187 | under the hold every marked packet is refused |
| LeakFree.VerifiedDecides | internal/adapters/openwrt/tunnel_route.go:126-136 | under the verified set a marked packet takes the tunnel table's best route, and is refused when it has none |
| LeakFree.GuardedNeverLeaks | internal/adapters/openwrt/tunnel_route.go:170-203 | in every guarded state a packet with only the tunnel's mark leaves by the tunnel or is refused |
| LeakFree.UnmarkedNeverExits | internal/adapters/openwrt/tunnel_route.go:126-136 | an unmarked packet never takes the tunnel's default route |
| LeakFree.UnmarkedDecides | internal/adapters/openwrt/tunnel_route.go:126-136 | under the verified set a packet with neither mark goes by main's best route unless that is a default route, then by the tunnel's unless that is one, and else none of the five rules decides it |
| LeakFree.OwnSocketEntersIff | internal/adapters/openwrt/tunnel_route.go:126-136 | the engine's own packets enter the tunnel exactly when main has no route to the server and the connection's networks name it |
| LeakFree.OwnSocketByMain | internal/adapters/openwrt/tunnel_route.go:126-136 | and where main has a route to the server, it is that route that they take, a default route among them |
| TunnelPrefixes.Normalize | internal/adapters/openwrt/tunnel_route.go:317-347 | the routes cover exactly the addresses of the networks given, never as two halves, and every entry that does not parse is an error |
| TunnelPrefixes.HalvesMakeAll | internal/adapters/openwrt/tunnel_route.go:331-345 | the two halves hold exactly every address of the family |
| TunnelPrefixes.JoinKeeps | internal/adapters/openwrt/tunnel_route.go:335-345 | replacing the halves by the default route keeps the union |
| TunnelRouting.TunnelRouter.Ensure | internal/adapters/openwrt/tunnel_route.go:100-122 | both families: safe throughout, armed on success, armed stays armed, and it succeeds when no command fails |
| TunnelRouting.TunnelRouter.Up | internal/adapters/openwrt/tunnel_route.go:264-295 | success means the guard verified first and each family's table, if it was empty or its flush worked, holds routes through the device to exactly the connection's networks, or to every address when it lists none; without a fault, and with networks that parse, it succeeds with both flushed |
| TunnelRouting.TunnelRouter.Down | internal/adapters/openwrt/tunnel_route.go:297-310 | the routes of each family go if its flush works, as it does unless something fails; the rules stay, so what is marked is refused |
| TunnelRouting.RoutesReach | internal/adapters/openwrt/tunnel_route.go:264-295 | a table so written sends an address by the device exactly when the networks cover it |
| TunnelRouting.RoutesReachListed | internal/adapters/openwrt/tunnel_route.go:264-295 | and so exactly when the connection lists it, or lists nothing |
| TunnelRouting.TunnelRouter.SafeStaysArmed | internal/adapters/openwrt/tunnel_route.go:100-122 | a safe call that began armed has every state of its record armed |
| Marking.Classify | internal/routing/routing.go:115-150 | the four sets hold exactly the subnets of their family and target; a malformed rule is an error |
| Marking.Render | internal/routing/routing.go:50-106 | succeeds exactly for well-formed rules and interfaces, and the chain marks every packet exactly as the rules ask |
| Marking.NamesAreHarmless | internal/routing/routing.go:160-176 | an interface's name fits the kernel's limit and ends no string, list or line of the chain's text |
| Marking.ChainMeans | internal/routing/routing.go:74-95 | the chain of any four sets: direct wins over tunnel, replies and other interfaces are left alone, other bits of the mark stay |
| RoutingRules.RoutingManager.SetRules | internal/adapters/openwrt/routing.go:78-92 | all of the rules are stored, and only well-formed ones, or none; without a fault exactly the well-formed are |
| RoutingRules.RoutingManager.Apply | internal/adapters/openwrt/routing.go:94-113 | the chain is loaded only behind an armed guard; a failure leaves the old chain; the tunnel's table is untouched and an armed router stays armed either way; it succeeds when nothing fails and rules and interfaces are well-formed |
| RoutingRules.RoutingManager.Load | internal/adapters/openwrt/routing.go:94-113 | a chain can be loaded only while what it marks is guarded; it comes into force whole or not at all |
| RoutingRules.AskedForNeverLeaks | internal/adapters/openwrt/routing.go:94-113 | in a guarded state, traffic to a tunnel network and no direct one leaves by the tunnel or is refused |
| RoutingRules.NotAskedForStaysHome | internal/adapters/openwrt/routing.go:94-113 | in a guarded state, other unmarked traffic never takes the tunnel's default route |
| RoutingRules.AskedForGoesThrough | internal/adapters/openwrt/routing.go:94-113 | in a guarded state with the connection up it leaves by the device exactly when the networks cover the destination |
| RoutingRules.AskedForIsRefused | internal/adapters/openwrt/tunnel_route.go:297-310 | in a guarded state with nothing in the tunnel's table it is refused |
| Daemon.AnyCalls | internal/adapters/openwrt/tunnel_route.go:45-48 | in whatever order calls of both managers reach the router and chains are loaded between them: once it is armed every later state is, and with every chain loaded none of them leaks |
| Daemon.ArmedLeaksNothing | internal/adapters/openwrt/routing.go:94-113 | an armed record is one in which no packet leaks in any state of the kernel |
| Daemon.Daemon.Act | internal/adapters/openwrt/vpn.go:89-312 | one action of either manager, a restart or an outside change keeps the guard, is a step of `NodeManager` for the nodes, and does what it is for when nothing fails |
| Daemon.Daemon.Do | internal/adapters/openwrt/routing.go:94-113 | the first chain comes into force in an armed state, and from then on every state is armed |
| Daemon.Daemon.Run | internal/adapters/openwrt/routing.go:94-113 | over any run, whatever fails: in every state since the rules were first applied, with every chain ever loaded, asked-for traffic leaves by the tunnel or is refused and other unmarked traffic never takes its default route |
| Daemon.Daemon.ValidLeaksNothing | internal/adapters/openwrt/routing.go:94-113 | between actions nothing has leaked in any state of the kernel since the first chain |
| Daemon.Daemon.DownIsRefused | internal/adapters/openwrt/tunnel_route.go:297-310 | with no node up and the table emptied, what the rules in force ask into the tunnel is refused |
| Daemon.Daemon.UpGoesThrough | internal/adapters/openwrt/tunnel_route.go:264-295 | with a node up that was routed undisturbed, what the rules in force ask into the tunnel leaves by its device exactly when the node lists the destination, or lists nothing, and is refused else |
| NodeManager.Manager.Activate | internal/adapters/openwrt/vpn.go:128-168 | success is that node up, running, chosen and routed; every failure is one of three states; the engine is never started while it runs; an armed guard stays; without a fault a listed node whose networks parse is activated |
| NodeManager.Manager.Switch | internal/adapters/openwrt/vpn.go:142-157 | the old tunnel down and its routes out, the new one up and routed into, or none up and no routes left |
| NodeManager.Manager.Stop | internal/adapters/openwrt/vpn.go:142-147 | the running tunnel down, and its routes out unless a flush fails |
| NodeManager.Manager.Unroute | internal/adapters/openwrt/vpn.go:251-255 | the tunnel's table is empty afterwards if the flush worked or it was before, and the guard stays |
| NodeManager.Manager.RemoveNode | internal/adapters/openwrt/vpn.go:89-119 | a removed node is not up, not chosen and not listed, and its routes are gone; without a fault every listed node is removed |
| NodeManager.Manager.BringBackOnce | internal/adapters/openwrt/vpn.go:298-312 | once another choice was made, or a node is up, the attempt changes nothing and is the last; else it activates the node, and without a fault does so |
| NodeManager.Manager.Restore | internal/adapters/openwrt/vpn.go:266-285 | the rules at once, and the chosen node to be brought back exactly if the document can be read |
| NodeManager.NeverBroughtBack | internal/adapters/openwrt/vpn.go:287-312 | over every run, restarts included, in which a node is not activated again, no attempt to bring it back changes anything |
| NodeManager.AlwaysConsistent | internal/adapters/openwrt/vpn.go:128-168 | over every run `up` names exactly the node the engine runs |
| Configuration.PrunedKeeps | internal/adapters/openwrt/uci.go:242-287 | the archive just written stays exactly while fewer than five are newer |
| Configuration.NothingNewLost | internal/adapters/openwrt/uci.go:264-287 | removing the oldest first loses nothing that should stay, wherever it stops |
| Configuration.NewestFive | internal/adapters/openwrt/uci.go:262-287 | what should stay is the newest five, or all there are |
| Configuration.Device.Prune | internal/adapters/openwrt/uci.go:264-287 | success leaves exactly the newest archives; in every state on the way only archives are missing; it fails only by a fault |
| Configuration.Device.TakeSnapshot | internal/adapters/openwrt/uci.go:119-145 | the files in force under the clock's second, kept on disk or not; nothing but the archives changes on the way; without a fault it is kept |
| Configuration.Device.Commit | internal/adapters/openwrt/uci.go:147-164 | file by file: in every state on the way each file is as before or as drafted; success is the draft in force and taken up by the services |
| Configuration.Device.DropStaged | internal/adapters/openwrt/uci.go:204-217 | only the draft shrinks; success empties it |
| Configuration.Device.Revert | internal/adapters/openwrt/uci.go:166-202 | every state is between the files in force and the archive; success is the archive over the files, no draft, and the services told |
| Configuration.Device.Save | internal/adapters/openwrt/journal.go:28-46 | the record is the old one or the new one |
| ApplyTransaction.ApplyCoordinator.Apply | internal/core/apply.go:242-293 | success has the new files in force and taken up, and awaits confirmation with a new token, a snapshot of what was in force and, without a fault, the record of both, having passed through the new files with no record yet; a failure takes a fault and puts the old ones back; a restart recovers from every state on the way but those with no record yet and each file as before or as drafted |
| ApplyTransaction.ApplyCoordinator.Confirm | internal/core/apply.go:297-318 | only the current token confirms; the files in force become the good ones, a restart in any state from then on keeps them, and without a fault no record is left |
| ApplyTransaction.ApplyCoordinator.RevertPending | internal/core/apply.go:420-437 | the good files come back and are taken up, and the record goes, unless something fails; every state on the way is one a restart recovers from |
| ApplyTransaction.ApplyCoordinator.Revert | internal/core/apply.go:384-398 | the same by hand, only while a change waits |
| ApplyTransaction.ApplyCoordinator.AutoRevert | internal/core/apply.go:409-418 | a timer of any other token changes nothing, however late; its own undoes the change and the record, unless something fails |
| ApplyTransaction.ApplyCoordinator.ApplyNow | internal/core/apply.go:350-382 | applied for good, or by a fault put back, and never while a change waits; in every state on the way there is no record and each file is as before or as drafted |
| ApplyTransaction.ApplyCoordinator.Stage | internal/core/apply.go:332-342 | nothing is staged while a change waits |
| ApplyTransaction.ApplyCoordinator.Crash | internal/core/apply.go:188-222 | between calls: what memory held is gone, and what is on disk is still recoverable |
| ApplyTransaction.ApplyCoordinator.RecoverPending | internal/core/apply.go:188-222 | over a recoverable disk the good files are in force and no record is left, the files being those the record recovers, unless something fails; a record without an archive is refused; every state on the way is recoverable again |
| ApplyTransaction.CrashAndRecover | internal/core/apply.go:180-222 | a process that goes away in any state, the middle of a call included, and starts again: from a recoverable disk it has the good files, and so once more if it goes away while recovering; without a record the disk stays as it is |
| ApplyTransaction.GapIsExact | internal/core/apply.go:262-293 | with no record yet, the old files are recovered exactly if they never went |
| ApplyTransaction.GapExample | internal/core/apply.go:262-293 | a disk in that gap from which they are not |
| ApplyTransaction.ApplyCoordinator.ClearJournal | internal/core/apply.go:441-448 | the record goes, or the device has failed; nothing else changes |
| ApplyTransaction.StillOnRecord | internal/core/apply.go:420-448 | a revert never touches the record or the archive it names, so a restart in any of its states undoes the same change |
| EmergencyRestore.Points | internal/adapters/openwrt/restore.go:229-273 | every readable point once, newest first, with the files that differ; without a fault every point |
| EmergencyRestore.ChoiceIsNewest | internal/adapters/openwrt/restore.go:112-137 | the default choice is the newest point that differs |
| EmergencyRestore.DiffersByFile | internal/adapters/openwrt/restore.go:263-268 | a point differs exactly when one of network, dhcp and firewall is not as it is in the point |
| EmergencyRestore.PutBackByFile | internal/adapters/openwrt/restore.go:162-173 | each of the three that the point has is then as in the point; every other file is as it was |
| EmergencyRestore.Restore | internal/adapters/openwrt/restore.go:92-194 | without a fault its answer and the disk it leaves are exact: a waiting change is refused unless forced, the point asked for or the newest that differs is put back, the draft is gone and what was replaced is a point; only the points and the files can make it fail |
| EmergencyRestore.Replace | internal/adapters/openwrt/restore.go:146-173 | keeps what it replaces as a point and drops the draft, and neither failing stops it: it fails exactly when a file cannot be written |
| EmergencyRestore.CarryOut | internal/adapters/openwrt/restore.go:146-194 | and neither does dropping the record or telling the services; without a fault the services have taken up the files put back |
| EmergencyRestore.UndoPoint | internal/adapters/openwrt/restore.go:146-154 | what was replaced is the newest point afterwards, and nothing newer than a kept point is lost |
| EmergencyRestore.TwiceIsUndone | internal/adapters/openwrt/restore.go:112-173 | running the command twice returns the three files exactly unless the first run brought back a file that was not there |
| EmergencyRestore.NotUndone | internal/adapters/openwrt/restore.go:112-173 | a disk on which two runs leave a file that was not there |
| GuestRecipe.Matches | internal/adapters/openwrt/wifi_guest.go:100-128 | the option count decides exactly whether a rule reads as the recipe and nothing more |
| GuestRecipe.ReadGuestShape | internal/adapters/openwrt/wifi_guest.go:158-248 | the panel's own, what a restore left of it, or someone else's, with its access points |
| GuestFirewall.ChecksKeep | internal/adapters/openwrt/wifi_guest.go:585-648 | a guest network with nothing found against it has its zone, rules, forwarding and bridge as made, and nothing open beside them |
| GuestFirewall.InGuestZone | internal/adapters/openwrt/wifi_guest.go:649-669 | where the checks find nothing, every packet that comes in by the guests' bridge, from whatever address, is put in the guests' zone exactly when no zone before it holds packets by a negation or by their address alone |
| GuestFirewall.AssignedInZone | internal/adapters/openwrt/wifi_guest.go:649-669 | packets from addresses assigned to guests are, exactly when no zone before it holds packets by a negation or has a range that overlaps a guest network |
| GuestFirewall.PacketInZone | internal/adapters/openwrt/wifi_guest.go:649-669 | and one packet is, when no zone before it holds packets by a negation or takes its address |
| GuestFirewall.BoundByNegation | internal/adapters/openwrt/wifi_guest.go:707-720 | where the checks find nothing, another zone is bound to the guests' bridge exactly when it is so by a negation |
| GuestFirewall.OneNetwork | internal/adapters/openwrt/wifi_guest.go:921-935 | with one guest network, for assigned addresses, only the negations are left to look for |
| GuestFirewall.GuestsAreKept | internal/adapters/openwrt/wifi_guest.go:585-648 | where the checks find nothing, every accepted packet of a guest that no zone before the guests' own takes, from whatever address, asks the router for DHCP, DNS, neighbour discovery or DHCPv6, or leaves by the uplink's zone for an address that is not private |
| GuestFirewall.Listed | internal/adapters/openwrt/wifi_guest.go:60-95 | a rule's lists taken word by word: the recipe's two lists of networks refuse exactly the private destinations, and its list of messages lets through exactly neighbour discovery |
| PrivateRanges.ListedIsPrivate4 | internal/adapters/openwrt/wifi_guest.go:60-64 | some word of the IPv4 list, read as a network, holds the address exactly when it is of 10/8, 172.16/12, 192.168/16, 100.64/10 or 169.254/16 |
| PrivateRanges.ListedIsPrivate6 | internal/adapters/openwrt/wifi_guest.go:60-64 | and of the IPv6 list exactly when it is of fc00::/7 |
| GuestFirewall.AllGuestsAreKept | internal/adapters/openwrt/wifi_guest.go:585-648 | so it is of every packet when no zone before the guests' own can hold any |
| GuestFirewall.AssignedTakesNone | internal/adapters/openwrt/wifi_guest.go:921-935 | and of every packet from an assigned address when none can hold those |
| GuestFirewall.GuestsAreServed | internal/adapters/openwrt/wifi_guest.go:82-95 | there, and where only the recipe decides, exactly those packets are accepted |
| GuestFirewall.DiscoverIsServed | internal/adapters/openwrt/wifi_guest.go:82-95 | a guest with no address yet is heard by the DHCP server |
| GuestFirewall.NeverHome | internal/adapters/openwrt/wifi_guest.go:725-741 | there, no accepted packet goes to a zone the home network is in |
| GuestFirewall.GuestsAreApart | internal/adapters/openwrt/wifi_guest.go:962-979 | every access point on the guest network is the panel's and isolated both ways |
| GuestReasons.BlockerIsFirst | internal/adapters/openwrt/wifi_guest.go:585-648 | what is told is the first thing in the way of guests, each defined apart from the others, and nothing exactly when none is: uplink, shared zone, NAT, split uplink, open rules, DHCP, the guest network itself, rules in its place |
| GuestReasons.WeakenedIsFirst | internal/adapters/openwrt/wifi_guest.go:869-983 | and of a guest network of the panel's, the first of seventeen things amiss, and nothing exactly when none is |
| GuestReasons.UplinkIsPicked | internal/adapters/openwrt/wifi_guest.go:1084-1103 | the uplink has a default route if any interface but loopback has; of several it is one called wan, or else the only one with wan in its name |
| GuestReasons.Uplink6IsPicked | internal/adapters/openwrt/wifi_guest.go:671-697 | the IPv6 uplink has an IPv6 default route if any interface has, and else asks for one by DHCPv6 if any does |
| GuestReasons.NamesMeans | internal/adapters/openwrt/wifi_guest.go:711-720 | a zone's device word names the device it spells, and with a `+` or a `*` at its end every device so beginning |
| GuestReasons.HomeIsFound | internal/adapters/openwrt/wifi_guest.go:725-741 | the home network's zone is known by its name or by its device, br-lan unless the network says otherwise |
| GuestWriter.EditsMakeGuests | internal/adapters/openwrt/wifi_guest.go:1234-1302 | all commands, run in order, add exactly the recipe's sections to the four files and renumber the home network when asked |
| GuestWriter.SectionMade | internal/adapters/openwrt/wifi_guest.go:1234-1297 | the commands of one section append that section and leave the others |
| GuestWriter.ListsDone | internal/adapters/openwrt/wifi_guest.go:1270-1302 | list items added one by one end up joined in their rule |
| GuestAgreement.RuleReads | internal/adapters/openwrt/wifi_guest.go:82-128 | each rule written is the rule the checks look for |
| GuestAgreement.NotCovered | internal/adapters/openwrt/wifi_guest.go:921-935 | no zone's range covers the network that was chosen |
| GuestAgreement.WriterAndChecksAgree | internal/adapters/openwrt/wifi_guest.go:1139-1302 | wherever a guest network can be made, the one made reads as the panel's, nothing is weakened, and it is blocked, as a split uplink, exactly if the IPv6 uplink is an interface called `guest` |
| GuestAgreement.MadeGuestsInZone | internal/adapters/openwrt/wifi_guest.go:1139-1302 | guests of a network so made are put in their zone exactly when no zone that was there holds packets by a negation or by address alone; those that use an assigned address exactly when none does by a negation |
| GuestAgreement.MadeGuestsAreKept | internal/adapters/openwrt/wifi_guest.go:1139-1302 | writer, checks and firewall together: guests of a network so made are kept to the internet, for each packet that no zone that was there takes, and each from an assigned address if none holds by a negation |
| GuestAccess.AccessPoints | internal/adapters/openwrt/wifi_guest.go:1250-1257 | on each radio one more access point, with the name, security and password asked for; those there before stay |
| GuestAccess.GuestsGetAddresses | internal/adapters/openwrt/wifi_guest.go:1258-1262 | guests are given addresses of their own network, never the router's or the network's last, for two hours |
| GuestAccess.GuestsArePrivate | internal/adapters/openwrt/wifi_guest.go:466-472 | every network tried is of private addresses, the router's own first |
| OrdinaryRouter.IsReady | internal/adapters/openwrt/wifi_guest.go:585-648 | a router with a home zone, a masquerading uplink zone and any more zones the checks find nothing in meets all that these theorems ask but for negations in those |
| OrdinaryRouter.NegationLeaks | internal/adapters/openwrt/wifi_guest.go:711-720 | a whole router on which the checks find nothing and every guest is let to the router's shell: a zone of every device but one is open |
| OrdinaryRouter.TwoAddressesLeak | internal/adapters/openwrt/wifi_guest.go:921-935 | and one on which they find nothing because the guests' interface has a second address, which the range of an open zone holds |
| OrdinaryRouter.ChosenAddressLeaks | internal/adapters/openwrt/wifi_guest.go:921-935 | and one with one address, on which no zone holds an assigned address: a guest that uses an address of an open zone's range is let to the router's shell |
| OrdinaryRouter.NamedGuestIsBlocked | internal/adapters/openwrt/wifi_guest.go:585-648 | on a router whose IPv6 uplink is an interface called `guest` a guest network can be made, and the one made is blocked |
| GuestSubnet.FreeGuestSubnet | internal/adapters/openwrt/wifi_guest.go:431-473 | the first candidate that shares no address with anything counted, and an error exactly when each one does |
| GuestSubnet.Tried | internal/adapters/openwrt/wifi_guest.go:466-472 | 192.168.3.0 to 192.168.254.0 are tried and 10.3.0.0 to 10.254.0.0 after them |
| GuestSubnet.FreeIsDisjoint | internal/adapters/openwrt/wifi_guest.go:456-464 | the two-way base-address test over masked networks is disjointness of the networks themselves |
| Prefixes.OverlapIsBaseContainment | internal/adapters/openwrt/wifi_guest.go:456-464 | two aligned networks share an address exactly when one holds the other's base |
| GuestSubnet.GuestIPv6 | internal/adapters/openwrt/wifi_guest.go:349-411 | a yes means some prefix has more /64s, exactly counted, than the home and all others take; a no is right too unless something is larger than a /48; the home is renumbered exactly when no delegated prefix has room beside it and some prefix has beside a home of one /64 |
| GuestStaging.Draft.StageGuest | internal/adapters/openwrt/wifi_guest.go:1139-1318 | every answer is the one due; refusals change nothing; success is exactly the recipe on usable radios in the first clear network, the home renumbered as `GuestIPv6` says; it fails exactly when a command does, and unless a second one does the draft is as it was |
| GuestStaging.Draft.Write | internal/adapters/openwrt/wifi_guest.go:1283-1302 | all commands, or the first failure and the undo of everything touched, complete unless a second command fails |
| GuestStaging.Draft.Discard | internal/adapters/openwrt/wifi_guest.go:1106-1126 | each thing touched is taken back once; when all of it works and nothing of it was pending, the draft is as before |
| GuestStaging.EditUntouched | internal/adapters/openwrt/wifi_guest.go:1283-1302 | a command changes nothing outside what the undo takes back |
| GuestStaging.ChooseRadios | internal/adapters/openwrt/wifi_guest.go:1168-1198 | the radios asked for, once each, or all but 6 GHz; refused exactly when one of them cannot be used or there are none |
| GuestStaging.ChosenCanCarry | internal/adapters/openwrt/wifi_guest.go:1168-1198 | no radio of 6 GHz or without a name is used; one of 2.4 or 5 GHz with a name can be |
| GuestStaging.StagedAgrees | internal/adapters/openwrt/wifi_guest.go:1139-1318 | what `StageGuest` returns passes every check, but for the split uplink of an interface called `guest` |
| GuestStaging.StagedIsKept | internal/adapters/openwrt/wifi_guest.go:1139-1318 | what `StageGuest` returns, once in force, keeps guests to the internet, under the same conditions |
| GuestStaging.StagedIsApart | internal/adapters/openwrt/wifi_guest.go:1212-1226 | the network given overlaps none of the kernel's routes, the live interfaces, the other zones' ranges, or the addresses and routes configured but not up |
| FirewallRules.ItemsOfJoin | internal/adapters/openwrt/firewall_rules.go:436-450 | a list of ports in its usual spelling reads as the same items |
| FirewallRules.SpellingKeepsPorts | internal/adapters/openwrt/firewall_rules.go:436-450 | and means the same ports |
| FirewallRules.ItemsApart | internal/adapters/openwrt/firewall_rules.go:436-450 | blanks, commas and tabs keep the items apart |
| FirewallRules.PortsRead | internal/adapters/openwrt/firewall_write.go:28-42 | a port, or two with a dash, reads as those ports exactly when they are ports and in order |
| FirewallRules.ListsRead | internal/adapters/openwrt/firewall_rules.go:436-450 | up to 32 such items read as those ports in their order, and no list else |
| FirewallRules.RangeCovered | internal/adapters/openwrt/firewall_rules.go:517-532 | every port of the range is in one of the ranges, and only then |
| FirewallRules.ShadowedBy | internal/adapters/openwrt/firewall_rules.go:457-475 | the first earlier rule that is certain to silence the wanted one, if any |
| Shadowing.CoversIsCertainty | internal/adapters/openwrt/firewall_rules.go:477-514 | a readable rule covers a request and sees its traffic exactly when it matches every packet of it; only a rule for every zone above one for the router's own traffic does not see it |
| Shadowing.SilencedMeans | internal/adapters/openwrt/firewall_rules.go:457-514 | what the check looks for is exactly a rule that is on, read in full, decides the other way and matches every packet of the request; for the traffic of a zone it refuses exactly when one is above |
| Shadowing.RefusedIsNoChange | internal/adapters/openwrt/firewall_rules.go:457-514 | a placement below a rule that silences it and sees its traffic changes the verdict of no packet, in file order and with rules for every zone first |
| Shadowing.AsConfigStates | internal/adapters/openwrt/firewall_rules.go:320-344 | the form the check takes matches all that the rule matches |
| Shadowing.NormalizeIsNormal | internal/adapters/openwrt/firewall_rules.go:349-390 | what is written for a request has a zone, protocols in order, and readable ports only where ports apply |
| Shadowing.RequestIsWritten | internal/adapters/openwrt/firewall_rules.go:349-390 | the rule written for a request matches exactly the packets the request is about as it was typed, and does with them what was asked |
| Shadowing.OwnTrafficRefusedWrongly | internal/adapters/openwrt/firewall_rules.go:477-482 | a rule for the router's own traffic below one for every zone is refused although it would have acted |
| RuleOrder.MoveLands | internal/adapters/openwrt/firewall_rules.go:249-292 | every other rule and section stays in order, and the rule lands where asked, exactly unless it is to be last and rules stand past the 65536th other section |
| RuleOrder.EndIsNotTheEnd | internal/adapters/openwrt/firewall_rules.go:249-292 | files on which a rule moved to the end lands in front of another |
| RuleOrder.NewLands | internal/adapters/openwrt/firewall_rules.go:66-79 | the same for a new rule, added last and then placed |
| RuleOrder.RuleHasSection | internal/adapters/openwrt/firewall_rules.go:551-573 | the place in the file and the place in the list of rules name the same rule |
| RuleOrder.Firewall.MoveRule | internal/adapters/openwrt/firewall_rules.go:229-314 | every answer is the one due: no such rule, a system rule, itself, already there, shadowed exactly when a rule in front of its new place silences it, else moved; the places reported are those of the move, and a shadowed refusal would have changed no verdict, for the router's own traffic if not only rules for every zone are above; it fails exactly when a command does, leaving the file as it was or as saved unless a second one does |
| RuleOrder.Firewall.AddRule | internal/adapters/openwrt/firewall_rules.go:37-192 | the same for a new rule: a request that cannot be written, no such rule, shadowed exactly when a rule in front of its place silences it, else added |
| Schedules.CleanSchedule | internal/core/schedule.go:44-75 | the fields are refused in their order, and the result is the one spelling |
| Schedules.CleanedIsClean | internal/core/schedule.go:44-75 | days in order, once each, the same days and times as asked |
| Schedules.RefusedFor | internal/core/schedule.go:44-75 | refused for exactly these reasons: no day or one that is none, a time that is none, or two that are the same |
| Schedules.CleaningTwice | internal/core/schedule.go:44-75 | cleaning is idempotent |
| Schedules.ReadHHMM | internal/core/schedule.go:147-168 | a time written is the time read |
| Schedules.ReadHHMMSS | internal/core/schedule.go:147-168 | and so with seconds |
| Schedules.ClockReads | internal/core/schedule.go:147-168 | hours before minutes, and none past 23 or 59 |
| OffTimes.OffAtIsCircular | internal/core/schedule.go:79-99 | off exactly on the arcs of the chosen days round the week |
| OffTimes.ChangesWithinAWeek | internal/core/schedule.go:101-112 | every clean schedule changes within a week of any moment |
| OffTimes.NextChange | internal/core/schedule.go:101-112 | the time of the least step at which off and on differ from now, and never empty for a clean schedule |
| ScheduleRules.ScheduleRoundTrip | internal/adapters/openwrt/devices_schedule.go:59-140 | every clean schedule written as sections reads back the same, in all three shapes |
| ScheduleRules.BlocksTheSchedule | internal/adapters/openwrt/devices_schedule.go:59-89 | the sections refuse the device, and no other, on its way into every other zone in exactly the seconds of the schedule and the closing second of each window, none at midnight |
| LanAddresses.PoolIsExact | internal/adapters/openwrt/lan.go:137-171 | a pool is shown exactly when both ends lie in the network, with no number wrapping |
| LanAddresses.StoredThenShown | internal/adapters/openwrt/lan_write.go:155-188 | two addresses stored as offsets are shown again |
| LanAddresses.SetThenShown | internal/adapters/openwrt/lan.go:137-158 | a pool set for an interface is the pool shown for it, counted in its first IPv4 network |
| LanAddresses.ShownThenStored | internal/adapters/openwrt/lan_write.go:155-188 | offsets shown are stored again, exactly for a pool that has an address and does not start with the network's own |
| LanAddresses.WordOfBytes | internal/adapters/openwrt/lan_write.go:190-192 | four bytes are their number and back |
| LanAddresses.LeaseTimeRoundTrip | internal/adapters/openwrt/lan_write.go:219-228 | every 64-bit lease time reads back as written, one below zero as none |
| LanAddresses.UnitsMean | internal/adapters/openwrt/lan.go:178-201 | a number of seconds, minutes, hours, days or weeks is so many seconds |
| Netmasks.NetmaskOf | internal/adapters/openwrt/routes_write.go:376-382 | the mask has exactly so many leading ones |
| Netmasks.MaskBits | internal/adapters/openwrt/routes.go:126-138 | the length of a mask, and -1 exactly when it is none |
| Netmasks.WrittenThenRead | internal/adapters/openwrt/routes_write.go:376-382 | a length written as a mask reads back |
| MetricsHistory.TakenApart | internal/metrics/metrics.go:67-78 | under any clock the samples taken are the spacing apart, each from every later one, exactly unless one is offered too soon after one of the clock's zero second |
| MetricsHistory.LeftOut | internal/metrics/metrics.go:67-78 | no sample is left out but one less than the spacing after the last taken |
| MetricsHistory.NoTimeIsNotApart | internal/metrics/metrics.go:67-71 | a sample at the clock's zero second breaks the spacing |
| MetricsHistory.Ring.Offer | internal/metrics/metrics.go:67-78 | takes the sample exactly when the plain sequence does |
| MetricsHistory.Ring.Samples | internal/metrics/metrics.go:83-94 | the last samples taken, oldest first |
| MetricsHistory.History.Add | internal/metrics/metrics.go:123-129 | both rings follow the same sequence |
| MetricsHistory.History.Day | internal/metrics/metrics.go:139-143 | the last 1440 of those a minute apart |
| MetricsHistory.History.Live | internal/metrics/metrics.go:132-136 | the last 60 of those three seconds apart |

## Where the code and its promise part

Each comes with a failing input and the exact condition.

- A zone bound by a negated `device` or `network` entry holds the guests' bridge
  although the checks take a negation to name only what it excludes: a whole router
  on which they find nothing and guests reach its shell is
  `OrdinaryRouter.NegationLeaks`.
- A zone of ranges alone takes a packet by its source, whatever device it came in
  by, and a guest chooses its source. The checks compare ranges with the guests'
  network only: `OrdinaryRouter.ChosenAddressLeaks`. And they skip even that when
  the guests' interface has more than one address or none (wifi_guest.go:921-935):
  `OrdinaryRouter.TwoAddressesLeak`.
- Exactly when no zone before the guests' own is of either kind is every packet of
  a guest in the guests' zone (`GuestFirewall.InGuestZone`; of the network made,
  when no zone that was there is, `GuestAgreement.MadeGuestsInZone`). For packets
  from assigned addresses ranges apart from the guest networks do no harm
  (`GuestFirewall.AssignedInZone`), and with one network the check has seen to that
  (`GuestFirewall.OneNetwork`). A negation of the guests' own interface is harmless,
  and so is one in a zone after theirs.
- An IPv6 uplink interface called `guest` passes before the guest network is made
  and blocks it afterwards (`OrdinaryRouter.NamedGuestIsBlocked`); that is the only
  such case (`GuestAgreement.WriterAndChecksAgree`).
- Moving a rule for the router's own traffic below a rule for every zone is
  refused although the rule would act (`Shadowing.OwnTrafficRefusedWrongly`); below
  one for the same traffic the refusal is right, and `Shadowing.CoversIsCertainty`
  draws the line.
- A rule moved to the end lands at place 65536 of the file, which is not the end
  exactly when other rules stand past it (`RuleOrder.MoveLands`,
  `RuleOrder.EndIsNotTheEnd`).
- A process that goes away after the commit and before the record is saved leaves
  files as before or as drafted, and a restart leaves them so. Every successful
  `Apply` passes through such a state, and from no other does a restart fail to
  recover (`ApplyTransaction.ApplyCoordinator.Apply`, `ApplyTransaction.GapIsExact`,
  `ApplyTransaction.GapExample`, `ApplyTransaction.CrashAndRecover`). `ApplyNow`
  keeps no record at all.
- Running the emergency restore twice does not undo it exactly when the first run
  brought back a file that was not there (`EmergencyRestore.TwiceIsUndone`,
  `EmergencyRestore.NotUndone`).
- A sample stamped with the first second of the year 1 counts as no sample
  (`MetricsHistory.NoTimeIsNotApart`); the daemon's own sampler stamps with the
  current time (internal/metrics/sampler.go:39) and offers none, and the exact
  condition on what is offered is in `MetricsHistory.TakenApart`.

## Left out

- NodeManager.Manager.BringBackOnce: one attempt of a loop that otherwise waits and tries again forever; the same goes for the loop that applies the routing rules at start.
- Daemon.Daemon.Run: adding or replacing a node in the stored document while the daemon runs; a reboot, which starts a new kernel and a new run.
- GuestFirewall.GuestsAreKept: the firewall's `defaults` section and files included into it are not modelled.
- GuestStaging.Draft.StageGuest: the checks of name, password and security, and whether the build can isolate bridge ports, are taken as passed.
- RuleOrder.Firewall.AddRule: the wording and quoting of a rule's name.
- GuestChecks: which zone or rule a check names to the reader; only which check it is.
- NetworkWords: an IPv6 network of which more than the first group is written; the recipe lists none.
- Marking.Render: which of two faults in a rule is told first.
- StageGuestEnabled and StageGuestRemove, which flip or delete the sections found.
- Editing and removing an existing rule, and reading back every device's schedule from one file (schedules, scheduleMAC).
- ApplySchedule, which copies a schedule's answers into a device.
- procAddr4In and the route tables read from /proc; routeTarget, onNetwork, checkable and routeInterfaceFor.
- LAN staging beyond the pool arithmetic, leases, reservations, and dotted addresses as text.
- Where a section reverted from disk stands among the others; a draft with one is not the subject of any statement here.
- The order of elements inside the marking chain's sets, and domain rules, which the chain does not hold.
- The text of `uci show`, `ip rule show` and nft; HTTP, tokens, the frontend, real engines and netlink.
