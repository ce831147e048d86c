# Viswall: verified models of the control plane's algorithms

Viswall manages firewalls, DNS and DHCP from one console. This project models the parts of it
that contain real algorithms or state machines and proves, for all inputs and all runs, what
they promise. `dafny verify dfyconfig.toml` checks everything.

## What is modelled

| modules | part of the system |
|---|---|
| `Simulator`, `MultiFirewall` | the packet simulator: rule table, verdict loop, NAT, test suites, path search and the hop-by-hop walk |
| `PortLists`, `LegacyImport`, `AgentRules`, `ImportMeaning`, `ImportedRules` | the legacy import as a compiler: iptables-save lines, classified rules, console rows, the agent's rule objects |
| `ParityGate`, `GateSurface`, `GateVerdict` | the gate that reads the same dump independently and compares it with the rendered table |
| `ImportProtocol` | apply and rollback of an import over a console other people edit too |
| `RuleOrder` | create, delete and move on `order_index`, as a refinement of plain lists |
| `ReverseZones` | reverse zone and PTR naming (section 3.5 of RFC 1035, section 2.5 of RFC 3596) |
| `Dnssec` | the DNSSEC key lifecycle and the DNSSEC lines of the rendered zone |
| `Snapshots`, `Rollback` | the firewall agent's undo points and its restore procedure |
| `Dhcp`, `DhcpRender`, `Leases`, `Lines` | the DHCP handlers, the Kea configurations made from them, and the lease file as lines of text |
| `BindImport` | the legacy BIND import |
| `Addresses`, `Text`, `Sorting`, `Sequences`, `Wrappers` | addresses as numbers, the string operations the code uses, stable sorting |

The model follows the code's own form. Objects that update their fields are classes, loops are
loops with invariants, and each such method is tied to a function of its inputs or of the old
state; the lemmas are about those functions. The database is maps, every handler is one atomic
step, and whatever the environment decides (return codes, disk failures, clocks, key material)
is a parameter that the theorems quantify over.

## What the proofs found

Some properties one would expect do not hold of the code. Each is stated with the exact
condition under which it does hold, and with a concrete case where it fails.

- The simulator judges packets between two lan interfaces by the output rules, where its own
  comment promises forward (`TraversedChain`, `InterVlanIsOutput`).
- A port list written with ':' makes the parity gate stop with an error, where the importer
  reads it (`StrictReadersAgree`, `ColonRange`, `ColonExample`).
- A captured number outside 1..65535 turns into a rule for the whole protocol, and a protocol
  text that holds a chain tag leaves the input chain (`ImportIsExactIff`, `PortZeroExample`).
- A meter's rate that is written out already, like 10/minute, is spoiled on the way into the
  console (`WrittenOutIsSpoiled`).
- The gate collects hardcoded tcp and udp lines that the importer skips, and ignores other
  protocols that the importer imports (`LineReadersAgreeIff`, `HardcodedLineParts`). It also
  takes a value spelled like an option for the option, and then collects nothing or stops
  (`SearchReads`, `ValueMistakenForOption`). It looks for guard ports in `--dport` only, and for
  protected ports on drop lines only, where the importer takes both (`PreroutingRead`,
  `ProtectionRead`).
- An apply that fails part way leaves rows that no rollback removes, because the manifest is
  saved only at the end (`RollbackRestoresIff`, `StoredButFailedPostOutlivesRollback`).
- PTR names are cut by text: an IPv4 reverse zone without a stored network accepts addresses
  whose label merely ends like the zone's (`TextualMatchIff`, `LookAlikeAccepted`). A reverse
  zone of prefix 0 names no pointer at all (`NamesPointerIff`, `DefaultRouteExample`).
- A zone's DNSSEC flag can part from its keys: exactly by creating a zone signed, by updating the
  flag away from them, and by rolling a ZSK where there is no KSK (`StepTiedIff`, `RunTiedIff`,
  `FlagIsNotTied`). An update can also store a null flag, and the agent then refuses the payload
  of the whole instance until the flag is written again (`RunNullIff`, `PublishedDs`).
- A snapshot taken after the clock was set back can be pruned at once, and need not be the one
  rollback picks (`NewSurvivesIff`, `ClockSetBack`).
- A lease on the first line of a headerless file cannot be released when the line's text
  contains "address" (`HeaderlessReleaseIff`, `EscapeExample`).
- Releasing the last lease can change the one before it, whose line is then trimmed at its end
  (`ReleaseRemovesExactlyIff`, `ExposedExample`).
- Where the address is not in the first column, or in a later one as well, the release takes the
  lines of another column than the one listed (`ReleaseWithHeaderIff`, `NotFoundIff`,
  `TwoColumnsExample`).
- The BIND import compares name server texts with the server's full name, but the parser keeps
  names inside the zone relative to it: a server inside its own zone is named twice
  (`ServerNamedOnceIff`, `FileNamedOnceIff`, `OwnZoneNamedTwice`).
- A delegation to the console's own server, spelled in full, is dropped as if it were the zone's
  own name server record (`NothingLostIff`, `DelegationLost`).

One expectation fails everywhere: NAT in the simulator never sends a packet to a different host,
because the translated destination is the matching rule's own destination field
(`NatNeverReachesAnotherHost`).

## Model

| member | source | states |
|---|---|---|
| `Simulator.FirewallSimulator.AddRule` | shared/firewall_simulator.py:225-228 | adding a rule leaves the stable sort of the old table with the rule at its end |
| `Simulator.FirewallSimulator.AddNatRule` | shared/firewall_simulator.py:230-233 | the same for the NAT table |
| `Simulator.FirewallSimulator.SetInterfaces` | shared/firewall_simulator.py:235-237 | replaces the interface types that chains are told from |
| `Simulator.FirewallSimulator.CheckNat` | shared/firewall_simulator.py:317-322 | the loop returns the first NAT rule of the chain that matches, if any |
| `Simulator.FirewallSimulator.EvaluateRules` | shared/firewall_simulator.py:260-278 | the verdict loop's matched rule, evaluation count and logs, each given by a function of the table |
| `Simulator.FirewallSimulator.SimulatePacket` | shared/firewall_simulator.py:239-299 | a packet's whole result (time aside) is `Simulate` of the configuration; chain, verdict, count, logs and translation are each characterised below in terms of rules, interfaces and packet |
| `Simulator.TraversedChain` | shared/firewall_simulator.py:301-315 | the one chain is input exactly when the packet enters on an interface listed as wan, forward exactly when it enters on one listed as lan and leaves on one listed as wan, and output otherwise, unlisted interfaces included |
| `Simulator.InterVlanIsOutput` | shared/firewall_simulator.py:309-315 | between two lan interfaces it is output, and no forward rule can match, where the code's own comment speaks of forward |
| `Simulator.EachFieldNarrows` | shared/firewall_simulator.py:75-120 | a rule without demands matches everything, and each field that demands something is met on its own; absent and empty fields, the word any and port 0 demand nothing |
| `Simulator.FirewallSimulator.RunTest` | shared/firewall_simulator.py:361-388 | one test passes when action and, if asked for, chain are as expected |
| `Simulator.FirewallSimulator.RunTestSuite` | shared/firewall_simulator.py:332-359 | results in order, counters, and deployment allowed exactly when every test passed |
| `Simulator.TableIsStableSort` | shared/firewall_simulator.py:225-228 | after any sequence of insertions the table is the stable sort of the insertions by `order` |
| `Simulator.PresortingIsIdle` | services/api-gateway/routers/firewall_simulation.py:157-175 | inserting rules already sorted, as the router does, gives the same table as inserting them as they come |
| `Simulator.FirstBlockDecides` | shared/firewall_simulator.py:264-278 | the first matching DROP or REJECT of the packet's chain is the matched rule and the verdict, and fixes how many rules were evaluated |
| `Simulator.LastMatchDecides` | shared/firewall_simulator.py:261-278 | when nothing blocks, the last matching rule decides, and ACCEPT when none matches |
| `Simulator.BlockedIffSomeRuleBlocks` | shared/firewall_simulator.py:264-278 | a packet is blocked if and only if some rule of the chain its interfaces give matches it and drops or rejects, wherever it stands |
| `Simulator.FromWanBlockedIff` | shared/firewall_simulator.py:264-307 | a packet from wan is blocked if and only if some input rule that matches it blocks |
| `Simulator.CountedAndLogged` | shared/firewall_simulator.py:260-278 | evaluated are the chain's rules up to the one that blocks, and logged those of them that match and ask for it |
| `Simulator.TranslatedBy` | shared/firewall_simulator.py:253-286 | only forwarded packets are translated, by the first matching prerouting rule and, if accepted, the first matching postrouting rule |
| `Simulator.BlockingIgnoresOrder` | shared/firewall_simulator.py:225-278 | two rule lists that differ only in insertion order and `order` values block the same packets |
| `Simulator.DistinctOrdersFixTheResult` | shared/firewall_simulator.py:225-299 | with distinct `order` values the whole result ignores insertion order |
| `Simulator.NatNeverReachesAnotherHost` | shared/firewall_simulator.py:317-330 | a translated destination that is a host address is the packet's own destination again |
| `Simulator.CountersSound` | shared/firewall_simulator.py:339-356 | no counted failure means every test passed, and a critical failure is a counted failure |
| `Simulator.SuitePasses` | shared/firewall_simulator.py:332-388 | result i of a suite is what test i by itself says, and the failure counter is the number of tests that fail |
| `Simulator.TestPasses` | shared/firewall_simulator.py:361-388 | a test passes exactly when the action is the expected one and the packet takes the expected chain, if one is given |
| `MultiFirewall.MultiFirewallSimulation.AddFirewall` | shared/firewall_simulator.py:398-400 | replaces the entry of that id and no other |
| `MultiFirewall.MultiFirewallSimulation.SetTopology` | shared/firewall_simulator.py:402-404 | replaces the topology |
| `MultiFirewall.MultiFirewallSimulation.CalculatePath` | shared/firewall_simulator.py:454-473 | terminates; returns nothing exactly when the destination is unreachable; otherwise a repeat-free path of topology edges no longer than any other |
| `MultiFirewall.MultiFirewallSimulation.Expand` | shared/firewall_simulator.py:462-471 | one round of the search either returns a shortest path or keeps the search invariant and makes progress |
| `MultiFirewall.MultiFirewallSimulation.ScanNeighbors` | shared/firewall_simulator.py:465-471 | the inner loop finds the goal on a shortest path or leaves every neighbour visited with the frontier intact |
| `MultiFirewall.MultiFirewallSimulation.WalkPath` | shared/firewall_simulator.py:422-445 | the hop loop computes `Walk` over the known firewalls of the path |
| `MultiFirewall.MultiFirewallSimulation.SimulateEndToEnd` | shared/firewall_simulator.py:406-452 | no-path error exactly when unreachable, else a shortest path, its walk, hop count and final action |
| `MultiFirewall.StartIsFrontier` | shared/firewall_simulator.py:459-460 | the initial queue satisfies the search invariant |
| `MultiFirewall.PopKeepsFrontier` | shared/firewall_simulator.py:463 | taking the first entry keeps it |
| `MultiFirewall.PushKeepsFrontier` | shared/firewall_simulator.py:469-471 | queueing a new neighbour keeps it |
| `MultiFirewall.AdvanceKeepsFrontier` | shared/firewall_simulator.py:462-471 | when the near entries are used up everything one edge further out is queued or done |
| `MultiFirewall.FoundIsShortest` | shared/firewall_simulator.py:466-467 | the path returned when the goal is met is repeat-free and no longer than any path |
| `MultiFirewall.ExhaustedIsUnreachable` | shared/firewall_simulator.py:473 | an empty queue means no path exists |
| `MultiFirewall.WalkIsPrefix` | shared/firewall_simulator.py:425-439 | the evaluated firewalls are a prefix of the known ones on the path; only the last can block; a shorter walk means it did |
| `MultiFirewall.WalkFoldsNat` | shared/firewall_simulator.py:441-445 | hop k simulates the packet left by folding the earlier hops' prerouting NAT |
| `MultiFirewall.WalkKeepsPacket` | shared/firewall_simulator.py:475-495 | the walk changes nothing but the destination, and never to a different host |
| `PortLists.ReadImportedPorts` | scripts/migrate_legacy_firewall.py:120-132 | the importer's loop computes `ImportedPorts` |
| `PortLists.ReadExpandedPorts` | scripts/firewall_parity_gate.py:67-79 | the gate's loop computes `ExpandedPorts` |
| `PortLists.ParseServicePorts` | services/firewall-service/viswall_firewall_agent/api.py:146-179 | the agent's loop computes `ServicePorts` |
| `PortLists.ColonDefeatsGate` | scripts/firewall_parity_gate.py:74-78 | a list written with ':' never reads for the gate |
| `PortLists.ColonRange` | scripts/migrate_legacy_firewall.py:120-132 | for all numbers low and high, the importer reads low:high as the range and the gate stops with an error |
| `PortLists.ColonExample` | scripts/firewall_parity_gate.py:74-78 | 80:82, say |
| `PortLists.StrictReadersAgree` | scripts/firewall_parity_gate.py:67-79 | gate and importer fail together or agree as sets exactly on texts without ':' or that neither reads |
| `PortLists.ServicePortsBounded` | services/firewall-service/viswall_firewall_agent/api.py:146-179 | whatever the input, every port lies in 1..65535 and the list has at most 256 times as many ports as comma parts |
| `PortLists.PortTextReads` | services/firewall-service/viswall_firewall_agent/api.py:146-179 | for every list of numbers, the agent reads the printed list as those that are ports, in order, so the 256-port cap never triggers on it |
| `PortLists.PortTextReadsBack` | scripts/migrate_legacy_firewall.py:290-298 | so a list of ports reads back as itself |
| `PortLists.PrintedPartReads` | services/firewall-service/viswall_firewall_agent/api.py:173-178 | a printed number reads back as itself when it is a port and is skipped otherwise |
| `PortLists.SinglePortReads` | services/firewall-service/viswall_firewall_agent/api.py:146-179 | a single printed number reads as that port, or as no port at all |
| `PortLists.ListReads` | services/firewall-service/viswall_firewall_agent/api.py:146-179 | for every list of numbers and ranges: the agent reads the valid ones in order unless a range of more than 256 ports empties the list, the importer and the gate read all of them |
| `PortLists.CapExample` | services/firewall-service/viswall_firewall_agent/api.py:146-179 | 8000-8255 is read whole, and 8000-8256 empties the list it stands in |
| `LegacyImport.ReadAppend` | scripts/migrate_legacy_firewall.py:153-192 | the index-and-negation loop over one line's tokens computes `ParseAppend` |
| `LegacyImport.ParseIptablesSave` | scripts/migrate_legacy_firewall.py:135-193 | the line loop computes `ParseDump`, table tracking and errors included |
| `LegacyImport.ClassifiedKinds` | scripts/migrate_legacy_firewall.py:196-241 | a row verdict names one of the five kinds `build_rows` knows, with ports where the kind needs them |
| `LegacyImport.SortedPorts` | scripts/migrate_legacy_firewall.py:290-298 | the aggregate row's ports: exactly the collected set, strictly increasing |
| `LegacyImport.Plan.ClassifyInto` | scripts/migrate_legacy_firewall.py:301-319 | one rule's effect on the plan's fields is `Extend` |
| `LegacyImport.Plan.AddPlannedRow` | scripts/migrate_legacy_firewall.py:317-319 | one row appended and counted |
| `LegacyImport.Plan.AddPlannedRows` | scripts/migrate_legacy_firewall.py:317-319 | a rule's rows appended and counted in order |
| `LegacyImport.Plan.ClassifyAll` | scripts/migrate_legacy_firewall.py:329-330 | the rules of one capture, in order |
| `LegacyImport.BuildPlan` | scripts/migrate_legacy_firewall.py:322-335 | both captures and the aggregate row give `PlanOf`, or the error it gives |
| `ImportedRules.ClassifiedAs` | scripts/migrate_legacy_firewall.py:196-241 | the exact fields that make a line a row of each kind, a skip of each category, an aggregate port, or an error |
| `ImportedRules.NamesAre` | scripts/migrate_legacy_firewall.py:196-241 | which chain and which target each name stands for, and for no other name |
| `ImportedRules.AntiSpoofRules` | scripts/migrate_legacy_firewall.py:273-277 | every anti-spoof line becomes one forward-chain drop towards its own `-d` text, flagged, without port or limit |
| `ImportedRules.GuardRules` | scripts/migrate_legacy_firewall.py:267-272 | every guard line becomes one drop of its tcp port to 127.0.0.1 in the input chain |
| `ImportedRules.MeterRules` | scripts/migrate_legacy_firewall.py:257-266 | every meter with a rate becomes a drop per port under its own name, with its rate and burst |
| `ImportedRules.LimitPerMinute` | scripts/migrate_legacy_firewall.py:258-259 | a rate per minute is written out in the limit, with the burst or 5 |
| `ImportedRules.WrittenOutIsSpoiled` | scripts/migrate_legacy_firewall.py:258 | a rate that is written out already comes out as minuteute |
| `ImportedRules.PortsRules` | scripts/migrate_legacy_firewall.py:278-287 | an accepting or dropping line becomes one named rule per port |
| `ImportedRules.LineBecomes` | scripts/migrate_legacy_firewall.py:301-319 | one line adds exactly its rules, and its protected port if it has one |
| `ImportedRules.PlanBecomes` | scripts/migrate_legacy_firewall.py:322-335 | for every pair of captures with a plan, the agent's rules are those of the IPv4 lines, those of the IPv6 lines, and one forwarded drop per protected port, in this order, each told in the line's own terms |
| `ImportedRules.PlanNotes` | scripts/migrate_legacy_firewall.py:301-335 | the plan reports every skipped line of each category and every unread one, in order, and counts the NAT and the masquerading lines |
| `AgentRules.RejectedPayloads` | services/firewall-service/viswall_firewall_agent/api.py:191-229 | a payload is rejected exactly when it has no name (null is one), its action is unknown or its order no integer; otherwise every rule has the action its word names, the end points of hosts, networks and ranges only, chain and flag by the name's tags, protocol, limit and order as given, and the list's ports in order |
| `ImportMeaning.OneBucketPerLine` | scripts/migrate_legacy_firewall.py:196-241 | every line adds to exactly one of skip, aggregate, unmapped and rows |
| `ImportMeaning.ExtendCounts` | scripts/migrate_legacy_firewall.py:301-319 | one rule grows the plan's counters by exactly its own tally |
| `ImportMeaning.NoSilentDrops` | scripts/migrate_legacy_firewall.py:301-335 | over both captures: lines are conserved over the four buckets, rows are the row lines' rows plus the aggregate row exactly when a port was seen, and the kind counters sum to the row count |
| `ImportMeaning.CountersByKind` | scripts/migrate_legacy_firewall.py:317-319 | each counter equals the rows of its kind its family's lines give |
| `ImportMeaning.PortNameTagged` | services/firewall-service/viswall_firewall_agent/api.py:182-188 | a port row's name moves it to the forward chain exactly when the line's protocol text holds a tag |
| `ImportMeaning.PortRowMeaning` | services/firewall-service/viswall_firewall_agent/api.py:191-229 | a port row becomes the pair itself, or a rule for the whole protocol when the number is no port |
| `ImportMeaning.ForwardRows` | services/firewall-service/viswall_firewall_agent/api.py:182-188 | anti-spoof and DOCKER-USER rows put rules in the forward chain only |
| `ImportMeaning.InternalRowPorts` | scripts/migrate_legacy_firewall.py:290-298 | the aggregate row reads back as the collected numbers that are ports, in order, and becomes one rule for the whole protocol exactly when none is |
| `ImportMeaning.LineMeaning` | scripts/migrate_legacy_firewall.py:301-319 | one line adds to the agent's input chain exactly what its verdict names |
| `ImportMeaning.LinesMeaning` | scripts/migrate_legacy_firewall.py:322-330 | so does a whole capture, in order |
| `ImportMeaning.ImportMeaningCarried` | scripts/firewall_parity_gate.py:320-322 | for every pair of captures with a plan, the input accepts (and explicit drops) the agent builds are those the lines name, each carried by the rule for tags and non-ports |
| `ImportMeaning.ImportIsExactIff` | scripts/firewall_parity_gate.py:320-322 | they are exactly the named pairs if and only if every named number is a port and no named protocol text holds a tag |
| `ImportMeaning.PortZeroExample` | services/firewall-service/viswall_firewall_agent/api.py:226-228 | an accept of tcp port 0 becomes an accept of all of tcp |
| `ParityGate.Expected.AddInputLine` | scripts/firewall_parity_gate.py:143-158 | an INPUT line gives a meter, or a triple per port of a tcp or udp accept or drop, or nothing, or the error of a bad number |
| `ParityGate.Expected.AddPreroutingLine` | scripts/firewall_parity_gate.py:160-166 | a PREROUTING drop is a loopback guard, an anti-spoof drop, or neither |
| `ParityGate.Expected.AddDockerUserLine` | scripts/firewall_parity_gate.py:168-171 | a DOCKER-USER drop protects its original port |
| `ParityGate.CollectTriples` | scripts/firewall_parity_gate.py:154-158 | the port loop collects one triple per port |
| `ParityGate.Expected.AddOne` | scripts/firewall_parity_gate.py:135-171 | a line is passed over unless it starts with "-A ", fails without a chain, and else changes what its chain's reader changes |
| `ParityGate.Expected.AddIptables` | scripts/firewall_parity_gate.py:134-171 | a dump's effect, meters included, or the error of its first bad line |
| `LegacyImport.WordOfIff` | scripts/migrate_legacy_firewall.py:156-189 | a token is taken for an option exactly when it is the option's spelling: no two options are spelled alike |
| `ParityGate.ParseIsFold` | scripts/migrate_legacy_firewall.py:156-191 | on option-value pairs, values spelled like options included, the importer's token loop is a fold over the pairs |
| `ParityGate.FindIsSeen` | scripts/firewall_parity_gate.py:82-87 | on every such line the gate's search finds the option's value, or what stands behind the first value spelled like the option if that comes first |
| `ParityGate.SeenOrSpelled` | scripts/firewall_parity_gate.py:82-87 | so what it finds is the option's own value or the text of an option, which is no protocol, verdict or number (`SpelledIsNoValue`) |
| `ParityGate.FindIsLookup` | scripts/firewall_parity_gate.py:82-87 | where no value is spelled like the option, it finds the first pair of it |
| `ParityGate.FoldHolds` | scripts/migrate_legacy_firewall.py:156-191 | what the importer's rule holds of a canonical line, option by option |
| `ParityGate.SearchReads` | scripts/firewall_parity_gate.py:143-158 | on every canonical INPUT line the importer parses, the gate stops with an error exactly when it takes a misread value or a list with ':' for the ports, collects nothing when another option is misread, and else the triples of a tcp or udp accept or drop without a meter name |
| `ParityGate.LineReadersAgreeIff` | scripts/firewall_parity_gate.py:143-158 | on every canonical INPUT line of the filter table that the importer parses the two readers agree on accepts and drops if and only if the gate does not stop there and either some option is misread and the importer makes no row of it, or none is and the line is not one the renderer hardcodes for tcp or udp, nor one of another protocol |
| `ParityGate.PlainLineAgreesIff` | scripts/firewall_parity_gate.py:143-158 | without ':' and without a value spelled like a searched option, what decides is the renderer's hardcoded lines and the other protocols alone |
| `ParityGate.HardcodedLineParts` | scripts/firewall_parity_gate.py:143-158 | `-i docker0 -p tcp --dport 22 -j ACCEPT`: the gate demands what the importer skips |
| `ParityGate.ValueMistakenForOption` | scripts/firewall_parity_gate.py:82-87 | `--comment -p -p tcp --dport 22 -j ACCEPT`: the gate takes the comment for the option and misses what the importer accepts |
| `ParityGate.LineAgrees` | scripts/firewall_parity_gate.py:134-158 | the same over running sets, other chains included |
| `ParityGate.DumpReadersAgree` | scripts/firewall_parity_gate.py:134-158 | over whole dumps whose lines are each no rule, a rule of another chain, or a flush canonical INPUT line on which they agree, the gate's sets grow by exactly the importer's |
| `ParityGate.ImportedAreNamed` | scripts/firewall_parity_gate.py:320-322 | these sets are the pairs whose import `ImportMeaningCarried` speaks of |
| `ParityGate.GateMatchesImportIff` | scripts/firewall_parity_gate.py:317-322 | for both captures, planned, imported and converted by the agent: the gate demands exactly the pairs the input chain accepts (or drops) if and only if every named number is a port and no named protocol text holds a tag |
| `GateSurface.ParsedFields` | scripts/migrate_legacy_firewall.py:153-192 | the rule of every orderly line: each option sets its own field, with its negation, and a field without an option stays empty |
| `GateSurface.RulesOfCapture` | scripts/migrate_legacy_firewall.py:135-193 | a capture that parses becomes one rule per rule line, in order and none left out, each in the table open at its line, so none outside a table block inherits one |
| `GateSurface.PreroutingRead` | scripts/firewall_parity_gate.py:160-166 | of a guard line the importer knows the gate collects the port if `--dport` gives it and nothing if `--dports` does; of an anti-spoof line it counts one unless the destination is the loopback address |
| `GateSurface.ProtectionRead` | scripts/firewall_parity_gate.py:168-171 | of the ports the importer protects the gate demands those whose line drops |
| `GateSurface.MeterRead` | scripts/firewall_parity_gate.py:143-149 | the gate reads a meter's own name and rate |
| `GateSurface.OtherLinesIdle` | scripts/firewall_parity_gate.py:134-139 | a line of any other chain, and one that is no rule, leaves what the gate expects alone |
| `GateSurface.RateReads` | scripts/firewall_parity_gate.py:90-102 | a number per unit is read with the unit written out, in whatever letters |
| `GateSurface.OtherRatesTrimmed` | scripts/firewall_parity_gate.py:98-100 | and any text that is no number per unit is only trimmed |
| `GateSurface.MinuteAgrees` | scripts/firewall_parity_gate.py:90-102 | so a rate per minute is the one the imported row is limited to |
| `GateVerdict.CompareAccepts` | scripts/firewall_parity_gate.py:341-351 | DIFF lines for exactly the missing and the undocumented extra accepts, a PASS line exactly when there are none |
| `GateVerdict.CompareDrops` | scripts/firewall_parity_gate.py:353-362 | the same for drops |
| `GateVerdict.CompareMeters` | scripts/firewall_parity_gate.py:364-375 | DIFF lines for exactly the missing, wrongly rated and extra meters, PASS exactly when there are none |
| `GateVerdict.CompareOne` | scripts/firewall_parity_gate.py:377-391 | one DIFF or PASS line for guards, internal ports and anti-spoof count |
| `GateVerdict.ComparePolicies` | scripts/firewall_parity_gate.py:393-401 | DIFF lines for exactly the chains with a missing or wrong policy |
| `GateVerdict.Compare` | scripts/firewall_parity_gate.py:331-403 | the whole report: DIFF lines are exactly the faults, PASS lines exactly the clean categories |
| `GateVerdict.GatePassesIff` | scripts/firewall_parity_gate.py:331-403 | no DIFF line if and only if the rendered side opens and drops what the capture does plus at most the documented extras and agrees on all else |
| `GateVerdict.PassLineIff` | scripts/firewall_parity_gate.py:331-403 | a category has its PASS line if and only if the two sides agree on that category |
| `ImportProtocol.Console.PostRow` | services/api-gateway/routers/firewall.py:81-107 | a post stores the row under the next id |
| `ImportProtocol.Console.DeleteRow` | services/api-gateway/routers/firewall.py:176-184 | a delete removes that row, or finds none |
| `ImportProtocol.Importer.ApplyRows` | scripts/migrate_legacy_firewall.py:429-451 | the apply loop's effect on console and manifest |
| `ImportProtocol.Importer.RollbackRows` | scripts/migrate_legacy_firewall.py:454-477 | the rollback loop's effect; every manifest entry is deleted or already gone |
| `ImportProtocol.ApplyCreatesNewRows` | scripts/migrate_legacy_firewall.py:437-444 | an apply creates exactly the first plan row of each name not present, with consecutive ids, in manifest order |
| `ImportProtocol.RepeatedApplyIsIdle` | scripts/migrate_legacy_firewall.py:437-440 | a repeated apply creates nothing |
| `ImportProtocol.RunsAreConsistent` | scripts/migrate_legacy_firewall.py:429-477 | over every run of edits, applies and rollbacks, failed ones included, the manifest holds only ids the importer was given |
| `ImportProtocol.RollbackDeletesOnlyMine` | scripts/migrate_legacy_firewall.py:463-466 | over every such run, a rollback leaves every row of others untouched |
| `ImportProtocol.TheirsStayTheirs` | scripts/migrate_legacy_firewall.py:442-448 | an id given to somebody else never enters the importer's account later |
| `ImportProtocol.RollbackRestoresIff` | scripts/migrate_legacy_firewall.py:454-477 | with no other writer, rollback leaves the original rows and the orphans, so it restores the store if and only if no failed apply had posted a row |
| `ImportProtocol.OrphansComeFromFailures` | scripts/migrate_legacy_firewall.py:446-448 | without a failed apply there are no orphans |
| `ImportProtocol.StoredButFailedPostOutlivesRollback` | services/api-gateway/routers/firewall.py:102-113 | a concrete run in which a stored row whose post answered an error survives the rollback |
| `RuleOrder.RuleStore.CreateFirewallRule` | services/api-gateway/routers/firewall.py:69-107 | the stored row gets the instance's greatest index plus ten |
| `RuleOrder.RuleStore.UpdateFirewallRule` | services/api-gateway/routers/firewall.py:135-159 | an update leaves the order alone |
| `RuleOrder.RuleStore.DeleteFirewallRule` | services/api-gateway/routers/firewall.py:170-184 | a delete removes that row only |
| `RuleOrder.RuleStore.MoveRule` | services/api-gateway/routers/firewall.py:197-243 | a move swaps indices with the next row above or below, if there is one |
| `RuleOrder.RunRefines` | services/api-gateway/routers/firewall.py:69-243 | over any run, each instance sorted by index is the list that append, remove and neighbour swap give; indices stay positive and distinct |
| `RuleOrder.StepRefines` | services/api-gateway/routers/firewall.py:69-243 | one handler step refines one list step |
| `RuleOrder.DistinctOrders` | services/api-gateway/routers/firewall.py:81-100 | two rules of an instance never share an index, and indices are positive |
| `RuleOrder.CreateAppends` | services/api-gateway/routers/firewall.py:81-100 | a new rule sorts last in its instance and moves nothing elsewhere |
| `RuleOrder.DeleteRemoves` | services/api-gateway/routers/firewall.py:176-184 | a delete keeps the order of the others |
| `RuleOrder.AboveIsPrevious` | services/api-gateway/routers/firewall.py:211-223 | the descending query finds the previous rule of the listing, and finds one exactly when there is one |
| `RuleOrder.BelowIsFollowing` | services/api-gateway/routers/firewall.py:227-239 | the ascending query finds the following rule |
| `RuleOrder.SwapTrades` | services/api-gateway/routers/firewall.py:224-225 | swapping the indices of neighbours trades them in the listing |
| `RuleOrder.MoveKeepsOthers` | services/api-gateway/routers/firewall.py:210-241 | a move never changes the relative order of the other rules |
| `RuleOrder.MoveUpConservesOrders` | services/api-gateway/routers/firewall.py:211-225 | moving up conserves the sequence of order indices |
| `RuleOrder.MoveDownConservesOrders` | services/api-gateway/routers/firewall.py:227-241 | so does moving down |
| `RuleOrder.UpThenDownIff` | services/api-gateway/routers/firewall.py:210-241 | up then down restores the list if and only if the rule was not the first of several |
| `RuleOrder.UpThenDownRestores` | services/api-gateway/routers/firewall.py:210-241 | and then restores the very same table |
| `ReverseZones.SharedLabels` | services/api-gateway/routers/dns.py:844-847 | an address lies in the network if and only if it starts with the labels the prefix covers |
| `ReverseZones.InsideRoundTrip` | services/api-gateway/routers/dns.py:104-113 | for every network with a prefix on a label boundary and every address inside it, the computed name is "@" for a full prefix and else the uncovered labels, and name and zone give back the reverse pointer |
| `ReverseZones.NamesPointerIff` | services/api-gateway/routers/dns.py:82-113 | for every address and network of either family, the computed name points back at the address if and only if the prefix is not empty and the address is inside |
| `ReverseZones.WholeRangeNamesNone` | services/api-gateway/routers/dns.py:82-113 | a network of prefix 0 holds every address of its family and its zone names none |
| `ReverseZones.DefaultRouteExample` | services/api-gateway/routers/dns.py:82-113 | 10.0.0.1 in 0.0.0.0/0 |
| `ReverseZones.CreatedZoneNames` | services/api-gateway/routers/dns.py:436-449 | in a zone made for a network, a record is accepted if and only if the address is inside, and then names its pointer |
| `ReverseZones.TextualMatchIff` | services/api-gateway/routers/dns.py:105-111 | the exact condition of the textual test: later labels equal and the zone's first label a text suffix of the address's |
| `ReverseZones.LookAlikeAccepted` | services/api-gateway/routers/dns.py:844-856 | a hand-made IPv4 zone without a network accepts an address outside it and misnames it |
| `ReverseZones.NibblesNeverLookAlike` | services/api-gateway/routers/dns.py:94-111 | for IPv6 zones the textual test is the network test |
| `ReverseZones.PointerInjective` | services/api-gateway/routers/dns.py:105 | distinct addresses have distinct reverse pointers, across families |
| `ReverseZones.PointerReads` | services/api-gateway/routers/dns.py:104-105 | the reverse pointer of every address: its octets in decimal or nibbles in hexadecimal, least significant first, under the root of its family |
| `ReverseZones.RootZoneNamesItself` | services/api-gateway/routers/dns.py:104-113 | a zone name of nothing but dots takes every address, at the zone itself |
| `ReverseZones.DistinctAddressesDistinctNames` | services/api-gateway/routers/dns.py:844-856 | two addresses of one created zone never share a record name |
| `ReverseZones.DistinctNetworksDistinctZones` | services/api-gateway/routers/dns.py:82-101 | two networks without host bits never share a zone name, across families |
| `Text.SuffixOfJoin` | services/api-gateway/routers/dns.py:107 | one joined name ends with another exactly when the later labels agree and the first is a text suffix |
| `Dnssec.Console.CreateZone` | services/api-gateway/routers/dns.py:384-402 | a new zone with the requested flag, no keys and no DS record |
| `Dnssec.Console.UpdateZone` | services/api-gateway/routers/dns.py:508-530 | an update reaches the flag only, stores what it is given, null included, and cannot answer while the flag is null |
| `Dnssec.Console.DeleteZone` | services/api-gateway/routers/dns.py:540-546 | the zone and its keys go |
| `Dnssec.Console.RetireKeys` | services/api-gateway/routers/dns.py:571-576 | the loop retires exactly the selected rows |
| `Dnssec.Console.SignZone` | services/api-gateway/routers/dns.py:565-613 | all keys retired, a new KSK and ZSK, the DS record and the flag |
| `Dnssec.Console.UnsignZone` | services/api-gateway/routers/dns.py:632-645 | all keys retired, DS record and flag cleared |
| `Dnssec.Console.Rollover` | services/api-gateway/routers/dns.py:680-722 | keys of one kind replaced; DS record only for a KSK; unknown zone before bad type |
| `Dnssec.RunsAreSound` | services/api-gateway/routers/dns.py:384-722 | in every reachable state each zone has at most one active KSK and one active ZSK, and the DS record is the active KSK's, or none when there is none |
| `Dnssec.RetiredForGood` | services/api-gateway/routers/dns.py:571-722 | over any run a key that is not active is never active again |
| `Dnssec.CreateStores` | services/api-gateway/routers/dns.py:384-402 | a new zone has the requested flag, no DS and the name without its last dots, and nothing else changes |
| `Dnssec.OthersUntouched` | services/api-gateway/routers/dns.py:384-722 | an event leaves every other zone's row and keys, retired ones included, as they were |
| `Dnssec.RowsKept` | services/api-gateway/routers/dns.py:565-722 | a key row goes only with its zone and changes only by being retired, at the time of the event |
| `Dnssec.ActiveAfterSign` | services/api-gateway/routers/dns.py:571-611 | signing leaves exactly the two new keys active in the zone and other zones as they were |
| `Dnssec.ActiveAfterRollover` | services/api-gateway/routers/dns.py:689-718 | a rollover replaces the active keys of its kind and no other |
| `Dnssec.RenderZone` | services/dns-service/viswall_dns_agent/render.py:42-61 | the loops build the zone file's lines, whose DNSKEYs, DS texts and records the rows below fix |
| `Dnssec.RenderedDnskeys` | services/dns-service/viswall_dns_agent/render.py:54-59 | in every sound state and for every order of the rows, a file with DNSSEC carries exactly the DNSKEYs of the zone's active keys, and one without carries none |
| `Dnssec.DnskeysAfterSign` | services/api-gateway/routers/dns.py:565-613 | signing publishes exactly the new KSK and ZSK, both with the flags 257 |
| `Dnssec.DsAfterSign` | services/api-gateway/routers/dns.py:565-613 | and the served file shows the DS record made of the new KSK's own tag and digest |
| `Dnssec.DnskeysAfterRollover` | services/api-gateway/routers/dns.py:689-718 | a rollover publishes exactly the new key and the old one of the other kind |
| `Dnssec.DnskeysAfterUnsign` | services/api-gateway/routers/dns.py:632-645 | after unsigning no DNSKEY is published |
| `Dnssec.RenderedRecords` | services/dns-service/viswall_dns_agent/render.py:42-52 | the file starts with the default lifetime, has a default SOA exactly when no record is one, and carries every record in order |
| `Dnssec.RenderedDs` | services/dns-service/viswall_dns_agent/render.py:54-59 | with DNSSEC a zone file carries exactly the zone's DS record whatever order the rows come in, without it none |
| `Dnssec.WriteZone` | services/dns-service/viswall_dns_agent/agent.py:63-82 | what one zone's pass writes: nothing for a disabled or slave zone, else the plain file, and the signed one when the flag is on |
| `Dnssec.PublishedDs` | services/dns-service/viswall_dns_agent/agent.py:63-82 | after any run the served file is written exactly for enabled zones that are not slaves, in a payload without a null flag, and shows a DS exactly when the flag is on and there is an active KSK, and then that KSK's |
| `Dnssec.PublishedDnskeys` | services/dns-service/viswall_dns_agent/agent.py:63-82 | and its DNSKEYs are those of the active keys exactly while the flag is on |
| `Dnssec.StepTiedIff` | services/api-gateway/routers/dns.py:384-722 | for every sound state and event, flag and KSK agree in a zone afterwards exactly when: a new zone is unsigned, an update sets what the keys say, a ZSK rollover finds a KSK, always after sign, unsign and KSK rollover, and else when they agreed before |
| `Dnssec.RunTiedIff` | services/api-gateway/routers/dns.py:384-722 | over any run they agree exactly when the last event that wrote the zone's flag was one that ties it |
| `Dnssec.RunNullIff` | shared/schemas.py:1912 | over any run a zone's flag is null exactly when the last event that wrote it was an update to null |
| `Dnssec.FlagIsNotTied` | services/api-gateway/routers/dns.py:512-721 | four runs apart: created signed, flag updated off a signed zone, flag updated to null, ZSK rolled in a zone without KSK |
| `Snapshots.StampOrder` | services/firewall-service/viswall_firewall_agent/snapshots.py:34-36 | stamps compare as text exactly as their times compare |
| `Snapshots.Agent.SnapshotState` | services/firewall-service/viswall_firewall_agent/snapshots.py:101-130 | a taken stamp or a directory that cannot be made fails and changes nothing, a failing disk leaves a partial directory, otherwise the snapshot is written and old ones are removed as far as they can be |
| `Snapshots.Agent.CaptureCommands` | services/firewall-service/viswall_firewall_agent/snapshots.py:106-112 | a failing tool is noted and skipped, a failing disk stops the loop |
| `Snapshots.Agent.PruneOldSnapshots` | services/firewall-service/viswall_firewall_agent/snapshots.py:78-86 | the ten greatest names remain, or as many more as stand behind the first directory that cannot be removed |
| `Snapshots.Agent.RemoveOldest` | services/firewall-service/viswall_firewall_agent/snapshots.py:84-86 | the removal loop, up to a directory that cannot be removed |
| `Snapshots.Agent.NewestSnapshotDir` | services/firewall-service/viswall_firewall_agent/api.py:336-342 | nothing for an empty directory, else the greatest name |
| `Snapshots.Agent.Deploy` | services/firewall-service/viswall_firewall_agent/api.py:440-463 | the snapshot comes first; the live state changes only when snapshot, conversion and validation all went through |
| `Snapshots.DeployedLive` | services/firewall-service/viswall_firewall_agent/api.py:440-463 | a deploy puts the new state in force if and only if nothing failed on the way, and otherwise leaves the old one |
| `Snapshots.RunLive` | services/firewall-service/viswall_firewall_agent/api.py:440-463 | after any run the state in force is that of the last deploy that did not fail, or the initial one |
| `Snapshots.TailIsNewest` | services/firewall-service/viswall_firewall_agent/snapshots.py:80-85 | dropping the front of the sorted list leaves the names that fewer than `keep` others exceed |
| `Snapshots.NothingSilentlyMissing` | services/firewall-service/viswall_firewall_agent/snapshots.py:106-121 | in a finished snapshot every artifact was captured or is named in failures.txt, never both |
| `Snapshots.NewSurvivesIff` | services/firewall-service/viswall_firewall_agent/snapshots.py:101-130 | a new snapshot survives its own pruning if and only if fewer carry a later stamp than are left, and is what rollback picks if and only if none does |
| `Snapshots.ClockSetBack` | services/firewall-service/viswall_firewall_agent/snapshots.py:78-130 | ten deploys in 2026, one with the clock in 2025: reported as taken, and gone |
| `Snapshots.NewestTenStay` | services/firewall-service/viswall_firewall_agent/snapshots.py:99-130 | after any run of deploys at increasing times, whatever fails, none of the ten newest snapshots that could be made is lost, and there are no others than those made |
| `Snapshots.RunKeepsNewestTen` | services/firewall-service/viswall_firewall_agent/snapshots.py:99-130 | after any such run whose last snapshot went through, removal included, the directory holds exactly the newest min(n, 10) of those made |
| `Snapshots.RollbackPicksLatest` | services/firewall-service/viswall_firewall_agent/api.py:336-342 | after any such run rollback picks the snapshot of the last deploy whose directory could be made, which shows the host as it was before that deploy |
| `Snapshots.PicksLatestIff` | services/firewall-service/viswall_firewall_agent/api.py:336-342 | it is the latest deploy's own if and only if that deploy's directory could be made |
| `Rollback.Machine.RunCapture` | services/firewall-service/viswall_firewall_agent/api.py:369-382 | one tool call: recorded, and doing what its return code says |
| `Rollback.Machine.CheckCaptures` | services/firewall-service/viswall_firewall_agent/api.py:369-376 | the first missing or failing capture ends the attempt |
| `Rollback.Machine.RestoreFamilies` | services/firewall-service/viswall_firewall_agent/api.py:380-388 | families restored in order up to the first failing one |
| `Rollback.Machine.ReapplyLastGood` | services/firewall-service/viswall_firewall_agent/api.py:394-412 | the last-good table re-applied when there is one |
| `Rollback.Machine.RollbackDirect` | services/firewall-service/viswall_firewall_agent/api.py:357-391 | the whole procedure's exit, commands and host state for every combination of return codes |
| `Rollback.DeleteOnlyAfterTests` | services/firewall-service/viswall_firewall_agent/api.py:369-378 | the table is deleted exactly when both captures exist and pass their test, after both tests and before any restore |
| `Rollback.RefusalTouchesNothing` | services/firewall-service/viswall_firewall_agent/api.py:369-376 | an attempt refused before the delete changes neither table nor rules |
| `Rollback.SuccessRestoresBoth` | services/firewall-service/viswall_firewall_agent/api.py:380-391 | success means exactly that both captures were good and both restores returned zero, and then both families carry the capture |
| `Rollback.FailedRestoreFallsBack` | services/firewall-service/viswall_firewall_agent/api.py:388-390 | a failing restore is followed, as the last command, by the re-apply whenever a last-good table exists |
| `Rollback.TableLostOnlyWithoutFallback` | services/firewall-service/viswall_firewall_agent/api.py:388-411 | an error exit with the table gone means there was no last-good table or its re-apply failed |
| `Rollback.LatestDeployCanRollBack` | services/firewall-service/viswall_firewall_agent/api.py:369-373 | rolling back the latest deploy is refused for a missing file only when its snapshot did not write both dumps, and surely then unless an earlier test fails |
| `Dhcp.Console.AddServer` | services/api-gateway/routers/dhcp.py:111-139 | refused without a family or with HA but no peer |
| `Dhcp.Console.PatchServer` | services/api-gateway/routers/dhcp.py:173-217 | refused when it would leave no family, HA without a peer, or a subnet of a family turned off |
| `Dhcp.Console.FindStranded` | services/api-gateway/routers/dhcp.py:192-209 | the loop finds a subnet of a family turned off exactly when there is one |
| `Dhcp.Console.RemoveServer` | services/api-gateway/routers/dhcp.py:233-244 | the server goes with its subnets and their rows |
| `Dhcp.Console.AddSubnet` | services/api-gateway/routers/dhcp.py:325-357 | refused for a family the server does not serve or lease times out of order |
| `Dhcp.Console.PatchSubnet` | services/api-gateway/routers/dhcp.py:398-417 | lease times checked against the patched row; a null that reaches the comparison is an unhandled error |
| `Dhcp.Console.RemoveSubnet` | services/api-gateway/routers/dhcp.py:435-447 | the subnet goes with its rows |
| `Dhcp.Console.AddPool` | services/api-gateway/routers/dhcp.py:476-500 | refused when the family is not the subnet's |
| `Dhcp.Console.PatchPool` | services/api-gateway/routers/dhcp.py:516-531 | the family cannot change |
| `Dhcp.Console.RemovePool` | services/api-gateway/routers/dhcp.py:548-563 | that row only |
| `Dhcp.Console.AddReservation` | services/api-gateway/routers/dhcp.py:595-619 | refused when the family is not the subnet's |
| `Dhcp.Console.PatchReservation` | services/api-gateway/routers/dhcp.py:636-656 | the family cannot change |
| `Dhcp.Console.RemoveReservation` | services/api-gateway/routers/dhcp.py:675-698 | that row only |
| `Dhcp.Console.AddOption` | services/api-gateway/routers/dhcp.py:727-750 | refused when the family is not the subnet's |
| `Dhcp.Console.PatchOption` | services/api-gateway/routers/dhcp.py:767-781 | the family cannot change |
| `Dhcp.Console.RemoveOption` | services/api-gateway/routers/dhcp.py:799-814 | that row only |
| `Dhcp.StepKeepsSound` | services/api-gateway/routers/dhcp.py:44-823 | every handler keeps the invariant |
| `Dhcp.RunsAreSound` | services/api-gateway/routers/dhcp.py:44-823 | in every reachable state a server serves a family and has a peer under HA, every subnet's family is served and its lease times ordered, and every row has its subnet's family |
| `Dhcp.RejectedIff` | services/api-gateway/routers/dhcp.py:44-823 | in a sound state a create or update is refused if and only if storing what it asks for would break the invariant |
| `Dhcp.NarrowingCatchesAll` | services/api-gateway/routers/dhcp.py:186-209 | the subnets are looked at only when a family is turned off, and that is enough |
| `Dhcp.UpdateServerRefusedIff` | services/api-gateway/routers/dhcp.py:186-209 | in every reachable state a server update is refused if and only if it would leave no family, leave HA without a peer, or strand a subnet |
| `Dhcp.OnlyDoneStores` | services/api-gateway/routers/dhcp.py:44-823 | a request that is not carried out stores nothing |
| `Dhcp.ServerDeleted` | services/api-gateway/routers/dhcp.py:233-244 | after deleting a server exactly the other servers' subnets are there, exactly the rows below those, and nothing that stays has changed |
| `Dhcp.SubnetDeleted` | services/api-gateway/routers/dhcp.py:435-447 | after deleting a subnet it and the rows below it are gone, and nothing else |
| `Dhcp.RowDeleted` | services/api-gateway/routers/dhcp.py:548-814 | after deleting a pool, reservation or option that row is gone, and nothing else |
| `Dhcp.CreateStores` | services/api-gateway/routers/dhcp.py:111-750 | a create stores what was sent under a new id, and changes nothing else |
| `Dhcp.UpdateStores` | services/api-gateway/routers/dhcp.py:173-781 | an update leaves the fields that were not sent, empties those sent as null and stores those sent with a value, in its own row only |
| `Dhcp.Ends` | services/api-gateway/routers/dhcp.py:44-823 | not found exactly for an unknown row, an unhandled error exactly for a null that trips it before a check refuses it |
| `Dhcp.LivesIff` | shared/models.py:767-769 | over any run a server, subnet, pool, reservation or option that was there is there at the end if and only if no request deleted it, its subnet or its server |
| `Dhcp.ReachedLivesIff` | services/api-gateway/routers/dhcp.py:44-823 | so from every state the handlers can reach |
| `DhcpRender.BuildOptionData` | services/dhcp-service/dhcp_agent.py:135-177 | the option loop: column options, then the rows of the family |
| `DhcpRender.BuildReservations` | services/dhcp-service/dhcp_agent.py:179-205 | the reservation loop: enabled ones of the family |
| `DhcpRender.BuildSubnet` | services/dhcp-service/dhcp_agent.py:223-267 | one subnet's entry: timers, options, pools, reservations, relays and interface |
| `DhcpRender.RenderConfig` | services/dhcp-service/dhcp_agent.py:273-345 | one family's interfaces, enabled subnets and HA peers |
| `DhcpRender.ApplyConfig` | services/dhcp-service/dhcp_agent.py:377-408 | the files written, one per enabled family, the commands run in order, and failure exactly when one of them fails |
| `DhcpRender.RenderedIsComplete` | services/dhcp-service/dhcp_agent.py:223-345 | for a payload copied from a reachable store each family's configuration is its enabled subnets, each with all its options, enabled pools and reservations |
| `DhcpRender.EntrySays` | services/dhcp-service/dhcp_agent.py:135-267 | a complete entry in the subnet's own terms: each lease time in its place, its non-empty columns and then its option rows as options, its enabled pools as ranges, its reservations in order |
| `DhcpRender.EnabledSubnetExactlyOnce` | services/dhcp-service/dhcp_agent.py:377-391 | every enabled subnet stands exactly once in the written configuration of its family and not in the other |
| `DhcpRender.EveryEntryIsASubnet` | services/dhcp-service/dhcp_agent.py:302-345 | nothing else is rendered |
| `DhcpRender.EntriesKeepTimerOrder` | services/dhcp-service/dhcp_agent.py:223-255 | every rendered entry's timers are in order |
| `DhcpRender.HookFollowsHa` | services/dhcp-service/dhcp_agent.py:269-271 | the HA hook is there exactly when HA is on, and some configuration is always written |
| `DhcpRender.PoolsKeptIff` | services/dhcp-service/dhcp_agent.py:231-235 | a subnet's enabled pools are all rendered if and only if none is of another family |
| `Lines.ParsedLines` | services/dhcp-service/dhcp_agent.py:423-427 | for every text, the parser sees the file's lines without the white ones at both ends, the outer white space of the first and last trimmed |
| `Lines.WrittenLines` | services/dhcp-service/dhcp_agent.py:527 | what is written back splits into the lines that were kept |
| `Leases.ParseLeases` | services/dhcp-service/dhcp_agent.py:419-490 | the parser's loop computes `Parse` |
| `Leases.HeaderlessEntry` | services/dhcp-service/dhcp_agent.py:434-487 | the entry of a line without a header: the address is the first cell, and each other value the cell of its own position, in either family |
| `Leases.FilterLines` | services/dhcp-service/dhcp_agent.py:508-522 | the rewriting loop keeps line 0 where its text holds "address" and the lines that are neither blank nor the address's, and tells whether it removed one |
| `Leases.LeaseFile.ReleaseLease` | services/dhcp-service/dhcp_agent.py:498-527 | the file is rewritten exactly when a line was removed; otherwise an error and no change |
| `Leases.AlikeIff` | services/dhcp-service/dhcp_agent.py:470-522 | where the address is the first column and no other, the lines the handler takes are the entries of the address, unless the first line escapes |
| `Leases.FirstIsColumn` | services/dhcp-service/dhcp_agent.py:470-522 | there the first cell of every line is its address column |
| `Leases.FilterCommutes` | services/dhcp-service/dhcp_agent.py:470-522 | where they are, dropping lines and then reading is reading and then dropping entries |
| `Leases.TookAlike` | services/dhcp-service/dhcp_agent.py:470-522 | if reading what is kept gives exactly the other entries, the lines taken were those of the address |
| `Leases.KeptReadsIff` | services/dhcp-service/dhcp_agent.py:423-522 | and with the parser's trimming, exactly then and unless the last line with text goes and the white space at the end of the one before it tells something |
| `Leases.ReleaseWithHeaderIff` | services/dhcp-service/dhcp_agent.py:498-527 | for every file whose first line has an address cell, wherever and however often, releasing leaves exactly the other entries in order if and only if the lines with that first cell are those of the address column and no such white space is exposed |
| `Leases.HeaderlessReleaseIff` | services/dhcp-service/dhcp_agent.py:498-527 | for every file without a header, it does so if and only if besides the first line is not both an entry for the address and text that contains "address" |
| `Leases.ReleaseRemovesExactlyIff` | services/dhcp-service/dhcp_agent.py:498-527 | for every regular file (an address header first, or no "address" at all), whatever its white space, parsing after the release is the old entries without the address's, in order, under the same condition |
| `Leases.ReleaseRemovesExactly` | services/dhcp-service/dhcp_agent.py:498-527 | where no line ends in white space the first half of it decides, and it holds where the first cell is the address column |
| `Leases.NotFoundIff` | services/dhcp-service/dhcp_agent.py:524-525 | for every regular file and address, "not found" exactly when no data line's first cell is the address, listed exactly when the address column of one is; they agree where these are one column, save that the empty address finds a line whose first cell is blank |
| `Leases.SecondReleaseFails` | services/dhcp-service/dhcp_agent.py:498-527 | for every regular file and address, after a release a second one answers "not found", and the address is listed still exactly when a kept line has it in the address column, never where that is the first cell |
| `Leases.EscapedEntryStays` | services/dhcp-service/dhcp_agent.py:508-514 | an entry on a first line that contains "address" stays listed whatever the handler answers |
| `Leases.EscapeExample` | services/dhcp-service/dhcp_agent.py:508-514 | such a file exists |
| `Leases.BlankIsLost` | services/dhcp-service/dhcp_agent.py:423-427 | in every file of two leases whose first pool id ends in a blank, releasing the second changes the first |
| `Leases.ExposedExample` | services/dhcp-service/dhcp_agent.py:423-427 | such a file: `10.0.0.1,aa,7 ` before `10.0.0.2,bb,8` |
| `Leases.TwoColumns` | services/dhcp-service/dhcp_agent.py:470-522 | in every file of one lease under a header whose address column is the third and whose first cell differs, the first cell releases the lease and its address does not |
| `Leases.TwoColumnsExample` | services/dhcp-service/dhcp_agent.py:470-522 | such a file: `address,x,address` and `1,a,2` |
| `BindImport.SkipServerNsDuplicate` | scripts/migrate_legacy_bind.py:139-151 | though it writes through the first equal slot while iterating, slot k ends with the original zone k filtered |
| `BindImport.WriteThrough` | scripts/migrate_legacy_bind.py:151 | writing through an earlier equal slot is writing what is already there |
| `BindImport.FilterIsIdempotent` | scripts/migrate_legacy_bind.py:146-150 | filtering a filtered zone changes nothing |
| `BindImport.FilterRecords` | scripts/migrate_legacy_bind.py:146-150 | the comprehension keeps the other records in order |
| `BindImport.FilterRemoves` | scripts/migrate_legacy_bind.py:146-150 | a record survives the filter exactly when it is no name server record that spells the server in full, letter by letter |
| `BindImport.RelativizedMeans` | scripts/migrate_legacy_bind.py:118-122 | a target the parser keeps stands for the name it was made from, up to letter case, and ends in a dot exactly when the name is outside the zone |
| `BindImport.Chunked` | scripts/migrate_legacy_bind.py:230-231 | the batches concatenate back to the records; each is non-empty and within the limit, and all but the last are full |
| `BindImport.ImportZone` | scripts/migrate_legacy_bind.py:192-226 | the console ends up with its automatic record and the kept ones in order |
| `BindImport.RespellsIff` | scripts/migrate_legacy_bind.py:134-151 | the name server records for the server that the filter leaves: those that name it relative to the zone or in other letters |
| `BindImport.SurvivesIff` | scripts/migrate_legacy_bind.py:139-151 | for each record: it survives the import unless it is a name server record that spells the server in full, away from the zone's own name, and no other spelling of it stands at the same name |
| `BindImport.NothingLostIff` | scripts/migrate_legacy_bind.py:139-151 | the import loses no record if and only if every name server record that spells the server in full is at the zone's own name or has another spelling of itself beside it |
| `BindImport.DelegationLost` | scripts/migrate_legacy_bind.py:146-150 | a zone whose delegation of `lab` to a server outside the zone is lost |
| `BindImport.OwnDelegationKept` | scripts/migrate_legacy_bind.py:118-150 | a delegation of `lab` to the server inside the zone is kept |
| `BindImport.ServerNamedTimes` | services/api-gateway/routers/dns.py:404-414 | the imported zone names the server once, and once more for every name server record that names it relative to the zone or in other letters |
| `BindImport.ServerNamedOnceIff` | scripts/migrate_legacy_bind.py:139-144 | it names it exactly once if and only if there is no such record |
| `BindImport.FileNamedOnceIff` | scripts/migrate_legacy_bind.py:118-151 | in terms of the zone file: if and only if the lines that name the server write it in its own letters and, should there be any, it lies outside the zone |
| `BindImport.OwnZoneNamedTwice` | scripts/migrate_legacy_bind.py:67 | grafixpromo.com with `@ NS dns1.grafixpromo.com.` and that server: it is named twice |

## Left out

- The nftables renderer, QoS and routing: the import is followed up to the agent's rule objects, and the gate's reading of rendered nft text is a parameter of the comparison.
- HTTP, authentication, audit log, sessions and transactions: each handler is one atomic step on maps, and an agent that is down appears only as a failed post in `ImportProtocol`.
- Times: processing times, pass rates, zone serials and the dates of rows are not modelled.
- `run_multi_firewall_tests`, `get_visual_simulation_data` and the built-in test libraries: they only call or display what is modelled.
- `int` on non-ASCII digits, and its limit of 4300 digits: numerals are ASCII and unbounded, and the word characters of a rate are ASCII too.
- Non-ASCII lower-casing: `lower` is modelled on ASCII letters.
- Shell quoting in captured lines: a rule line is its token sequence, and the gate's plain split is taken to give the same tokens, as it does on unquoted lines.
- Row descriptions and the import's printed report: texts nobody reads back.
- ParityGate.DumpReadersAgree: about dumps on each of whose lines the readers agree; where two lines make up for each other's disagreement the sets may still be equal. An indented rule line, which only the importer reads, counts as a disagreement.
- RuleOrder.RuleStore.MoveRule: the directions "top" and "bottom" that a comment lists have no code and move nothing, as in the code.
- LegacyImport.BuildPlan: a loopback guard line with several ports gives one row for its first port, as in the code; nothing is proved about the others.
- The rate limit of a meter row through the console's database: `create_firewall_rule` does not store it, so preservation is stated on rows handed straight to the agent.
- Rollback.Machine.RollbackDirect: models return codes only; a tool that cannot be launched after it passed its test raises an error the recovery does not catch, and that path is not part of this model.
- The restore script that replaces the direct rollback where it is installed is not part of this model.
- ReverseZones: parsing of address and network texts; an address is its width and value, and the printed labels are built from those.
- DNSSEC key tags, blobs and digests are arbitrary inputs; algorithms and key sizes are left out.
- Dnssec: the agent's refusal of a payload with a null flag is taken from its schema, which asks for a bool; other ways a payload can be refused are left out.
- Dnssec.RenderZone: keeps each line's kind and text; the layout of SOA and record lines is left out.
- The DNS agent's own `sign_zone`, which replaces a payload's keys before rendering, is not part of this model.
- Snapshots.StampOrder: years 1000 to 9999, the ones `%Y` prints in four digits everywhere.
- Dhcp: ids come from one counter for all tables, where the database has one per table; names, descriptions and prefix delegation are left out, and so are leases kept in the database.
- DhcpRender.BuildSubnet: the delegated-prefix pools of IPv6 subnets, which need a parser of network texts, are not part of this model.
- DhcpRender.RenderConfig: the interfaces are a set, without their sorted order; lease database, control socket, loggers and the hook's constants, the same for every payload, are left out.
- DhcpRender: no code in the repository builds the payload from the database, so the theorems are about any payload that copies the rows; null lists read as empty.
- Leases.ParseLeases: quoted CSV fields are not part of this model: a cell is what stands between commas. Contents are as text mode reads them, so no line ends in a carriage return.
- BindImport: parsing of zone files, save for how the targets of name server lines are spelled; a record is its name, type, content and the rest. Names with escaped characters are not modelled.
- `migrate_legacy_interfaces.py` and `migrate_legacy_mail.py`, LDAP, mail, VPN, metrics, the command line, SDKs and web console: thin wrappers, or a repetition of the import protocol.
