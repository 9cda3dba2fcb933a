# Verified model of local-auto-domain

local-auto-domain watches ssh and kubectl port forwards, gives each one a loopback address, a domain name, a line in a
dnsmasq hosts file and a small TCP proxy, and takes all of that back when the forward goes away. This project models
the parts of it that have to agree with each other and proves that they do.

| files | what they model |
|---|---|
| `Text.dfy`, `Options.dfy`, `NameOrder.dfy`, `MapRange.dfy` | ASCII strings, decimals, optional results, directory listings in name order, ranging over a map in any order |
| `Config.dfy`, `Forward.dfy`, `Domain.dfy` | service tables and domain naming |
| `IpAlloc.dfy`, `Ipc.dfy` | the address pool and the store shown to clients |
| `Dnsmasq.dfy`, `HostsIndex.dfy` | the manager over its drop-in directory, and the hosts file as an index |
| `DaemonModel.dfy` | the daemon as a state machine: one state for each effect on shared state; polls, runs, invariants |
| `DaemonRuns.dfy`, `DaemonOrigin.dfy`, `DaemonNames.dfy`, `DaemonConvergence.dfy`, `DaemonDns.dfy` | what holds over all runs |
| `DaemonDistinct.dfy`, `DaemonWitness.dfy`, `DaemonFamilies.dfy`, `DaemonCutoff.dfy`, `DaemonTargets.dfy`, `DaemonPairs.dfy` | truncated names over all runs: when domains can become equal, and exactly when they cannot |
| `DaemonStale.dfy` | what failed reloads leave behind, over all runs |
| `Daemon.dfy` | the daemon's methods over the stores they update in place, refining the state machine |
| `Scanner.dfy`, `CommandLine.dfy`, `KubectlLine.dfy` | command-line parsing, and printing as its inverse |
| `Proxy.dfy` | start, accept loop and concurrent stops of one proxy, step by step |
| `ConfFile.dfy` | adding and removing directive lines in `dnsmasq.conf` |

Everything the program cannot decide is a parameter of the operation it affects and is quantified over: the scan
result, the order of each map iteration, and the success or failure of every system call (`Outcome`, `Env`, `Io`,
`bind`). A run is any sequence of polls from an empty daemon. Each imperative method is tied to a function of the old
state; the lemmas are about those functions.

## Where the code does less than it seems to

- Names. `docs/adr/008-identifier-service-domain-naming.md` line 92 says the port suffix handles collisions caused by
  truncation. The code truncates after appending the suffix, so it may cut the suffix off: `FallbackDiffersIff` gives the
  exact bound (the plain name has at most 61 bytes), and `TruncationClashReachable` a run in which one poll makes two
  forwards active under one domain. Over runs, domains are distinct if no generated name was truncated
  (`DomainsDistinct`), or, truncation allowed, if no forward can find both its plain name and its fallback in use
  (`NoClashDistinct`). Conversely, forwards that share a plain name of more than 61 bytes always share their domain
  (`LongNamesClash`). The exact condition, for any forwards whatever, is `AlwaysDistinctIff`: some run gets two equal
  domains if and only if a clash can be derived from the names alone, adding forwards one at a time beside at most two
  others. Closed forms of it are given for families in which no fallback is the plain name of another target
  (`FlatDistinctIff`), which includes all families of untruncated names (`UntruncatedFallback`), for any number of
  forwards to one target (`OneTargetDistinctIff`), and for any two forwards (`PairAlwaysDistinctIff`).
- Convergence. Adds precede removes, so one poll reaches the scanned ports exactly when they fit the pool together with
  the ports still active (`RunConvergesIff`); otherwise a second poll is needed (`FullPoolDelaysOnePoll`), and always
  enough (`TwoPollsConverge`).
- Failed reloads. When dnsmasq cannot be reloaded, `Manager.Add` has already written the files, but the daemon treats
  the add as failed and frees the address. Over all runs with working file operations the hosts file is exactly the active
  entries and the stale records of such adds (`HostsAreActiveAndStale`), so it is exact if and only if nothing is stale
  (`ExactIffNothingStale`). A port is stale exactly if some poll wrote its files without reloading and it has never been
  active since (`StaleIff`). Its record heals when its own add succeeds (`StaleHeals`), stays for ever when the port is no
  longer scanned (`StaleStays`), and its address is the one the next add takes (`StaleAddressReused`). Shutdown leaves
  exactly the stale records in the hosts file (`ShutdownLeavesStale`).
- Undoing. `Remove` after `Add` gives the old hosts bytes back exactly if they were in sync before
  (`RemoveUndoesAdd`). Teardown gives the old configuration file back, up to one newline per directive, exactly if none
  of the directives was in it before (`SetupTeardownIff`).

## Model

| member | source | states |
|---|---|---|
| Config.Default | internal/config/config.go:42-53 | poll interval, TLD, the default ports copied by the loop, and no overrides |
| Config.DefaultProxyPorts | internal/config/config.go:12-33 | the two tables agree: a default proxy port stands for the same service as the remote port and maps to itself |
| Config.KnownServices | internal/config/config.go:23-33 | which remote ports stand for which service, and that no others do |
| Config.ConfiguredPort | internal/config/config.go:108-117 | configuring a service's port moves the proxies of its remote ports and no others; without one they listen on the remote port |
| Text.CaseFolding | internal/domain/domain.go:52 | each capital becomes the small letter at its place in the alphabet, and nothing else changes |
| Text.TrimTakes | internal/dnsmasq/manager.go:32-33 | trimming takes whole ends of white space and nothing else |
| Text.SpaceCharacters | internal/dnsmasq/manager.go:32-33 | which ASCII characters are white space |
| Text.AtoiReads | internal/scanner/scanner.go:95-103 | signs and leading zeros are read, and what is out of range reads as the nearest bound |
| Text.AtoiMalformed | internal/scanner/scanner.go:95-103 | what is not a number reads as zero |
| Text.Int64Bounds | internal/scanner/scanner.go:95-103 | the bounds are those of 64-bit integers |
| Domain.Sanitize | internal/domain/domain.go:51-70 | the one-pass builder loop, trim and truncation yield the lower-case alphanumeric runs joined by single dashes, cut to 63 bytes, without trailing dashes |
| Domain.LabelClean | internal/domain/domain.go:51-70 | a label has only lower-case letters, digits and single inner hyphens, at most 63 bytes, and is empty exactly if the text has no alphanumeric character |
| Domain.SanitizeIdempotent | internal/domain/domain.go:51-70 | sanitizing a sanitized name changes nothing |
| Domain.LabelIgnoresCase | internal/domain/domain.go:52 | a text and the same text with any letters in the other case have the same label |
| Domain.NoCapitalsKept | internal/domain/domain.go:52-63 | a text without capitals keeps its letters and digits |
| Domain.ShortLabel | internal/domain/domain.go:65-69 | truncation changes the name exactly if it was longer than 63 bytes |
| Domain.ServiceLabelShape | internal/domain/domain.go:42-47 | every service label starts with a letter, and for a non-negative remote port is a single lower-case word |
| Domain.ServiceLabelReads | internal/domain/domain.go:42-47 | an unknown service is spelled as port and its number, which reads back |
| Domain.PlainWords | internal/domain/domain.go:18-20 | the words of the plain name are those of the identifier followed by the service label |
| Domain.SuffixedWords | internal/domain/domain.go:23-25 | the fallback adds the local port as one more word |
| Domain.GeneratedLabelValid | internal/domain/domain.go:17-27 | whatever names are taken, the generated label is a non-empty well-formed DNS label of at most 63 bytes |
| Domain.GeneratedWords | internal/domain/domain.go:17-47 | an untruncated name spells out override, else remote host, else resource, else port, and then the service |
| Domain.ChosenIsFresh | internal/domain/domain.go:17-27 | the chosen name clashes with no untruncated name of another port, although the fallback is not re-checked |
| Domain.SuffixedLabel | internal/domain/domain.go:24 | what truncation leaves of the port suffix, byte for byte |
| Domain.FallbackDiffersIff | internal/domain/domain.go:22-25 | the fallback differs from the name it replaces if and only if the plain name has at most 61 bytes |
| Domain.SameTargetDistinctIff | internal/domain/domain.go:17-27 | names generated one after another for one target are pairwise different if and only if a suffix fits and the digits that fit tell the ports apart; `DaemonTargets.FirstPollDistinctIff` states this of runs |
| Domain.TruncationClash | internal/domain/domain.go:17-27 | with any 57-letter identifier, ports 8080 and 8443 to remote port 80 get the same name; `DaemonPairs.TruncationClashReachable` gives the run |
| IpAlloc.ExhaustedIff | internal/ipalloc/ipalloc.go:20-30 | the pool never exceeds 254 addresses and is exhausted exactly at 254 |
| IpAlloc.Allocator.Allocate | internal/ipalloc/ipalloc.go:20-30 | takes the lowest free address and marks it; fails, changing nothing, exactly if all are in use |
| IpAlloc.Allocator.Free | internal/ipalloc/ipalloc.go:33-44 | frees that address and no other; ignores addresses outside 127.0.1.0/24 |
| IpAlloc.ShowReads | internal/daemon/daemon.go:132 | the text of an address reads back as the address, byte for byte |
| Dnsmasq.ConfNames | internal/dnsmasq/manager.go:118-124 | state file names are injective in the port, recognised as state files, and never the hosts file |
| Dnsmasq.ConfNameReads | internal/dnsmasq/manager.go:122-124 | a port's state file name is port-, its decimal number and .conf |
| Dnsmasq.StateFileIff | internal/dnsmasq/manager.go:99 | a file counts as a state file exactly if its name begins with port- and ends in .conf |
| Dnsmasq.HostnameIff | internal/dnsmasq/manager.go:22 | a valid name has letters, digits, hyphens and dots, and begins with a letter or digit |
| DaemonNames.IPv4Iff | internal/dnsmasq/manager.go:37-39 | a text is taken for an IPv4 address exactly if it is how some address is shown |
| HostsIndex.IPv6Iff | internal/dnsmasq/manager.go:37-39 | and for an IPv6 address exactly if it is eight groups, or fewer around an ellipsis, the last two of which may be written as IPv4 |
| HostsIndex.HextetIff | internal/dnsmasq/manager.go:37-39 | a group is one or more hexadecimal digits, as many as are sure to fit 16 bits |
| NameOrder.LeqIff | internal/dnsmasq/manager.go:96 | names are listed by their first differing byte |
| NameOrder.SortedAscends | internal/dnsmasq/manager.go:96 | in ascending order |
| Dnsmasq.CollectLines | internal/dnsmasq/manager.go:97-110 | the loop yields the trimmed non-empty contents of the readable state files in listing order |
| Dnsmasq.Manager.WriteHostsFile | internal/dnsmasq/manager.go:95-116 | replaces the hosts file by the text the readable state files determine, or fails and changes nothing |
| Dnsmasq.Manager.Add | internal/dnsmasq/manager.go:29-59 | new directory and result for every combination of failures, including validation of IPv4 and IPv6 addresses and of names |
| Dnsmasq.Manager.Remove | internal/dnsmasq/manager.go:62-70 | new directory and result for every combination of failures; a missing state file is no error |
| Dnsmasq.Manager.DeleteStateFiles | internal/dnsmasq/manager.go:81-86 | deletes the state files it can and nothing else |
| Dnsmasq.Manager.RemoveAll | internal/dnsmasq/manager.go:73-91 | new directory and result for every combination of failures |
| HostsIndex.RebuiltInSync | internal/dnsmasq/manager.go:95-116 | after a rebuild the hosts file is what the state files determine, reload or not |
| HostsIndex.AddsCommute | internal/dnsmasq/manager.go:29-59 | adds for different ports commute byte for byte |
| HostsIndex.RemoveUndoesAdd | internal/dnsmasq/manager.go:29-70 | removing an added port restores the state files, and the hosts bytes exactly if they were in sync |
| HostsIndex.ServedLine | internal/dnsmasq/manager.go:95-116 | a state file's line is a line of the hosts file whatever else is in the directory |
| HostsIndex.HostsReadBack | internal/dnsmasq/manager.go:95-116 | splitting the hosts file on newlines and tabs gives each port's address and name exactly once |
| HostsIndex.HistoryRepresents | internal/dnsmasq/manager.go:29-116 | after any sequence of operations the state files are exactly those of the abstract port map, and the hosts file is in sync once it was rewritten |
| HostsIndex.IndexRefinement | internal/dnsmasq/manager.go:29-116 | after any sequence of operations the hosts file reads back as the abstract port map if and only if some operation rewrote it or a leftover one had no complete line |
| HostsIndex.AddOkServes | internal/dnsmasq/manager.go:29-59 | if an add succeeds, its state file has the line, and so has the hosts file unless the file cannot be read back |
| HostsIndex.ForeignFilesKept | internal/dnsmasq/manager.go:81-116 | no sequence of operations, failing or not, touches a file other than hosts and those named port-….conf |
| HostsIndex.ForeignIgnored | internal/dnsmasq/manager.go:98-101 | nor does the content of such a file get into the hosts file |
| HostsIndex.StartupFileKept | internal/dnsmasq/manager.go:82-85 | in particular 00-port.conf stays as it is |
| Ipc.StateStore.Set | internal/ipc/server.go:38-42 | the entry is stored under its port |
| Ipc.StateStore.Delete | internal/ipc/server.go:44-48 | the port's entry and no other is gone |
| Ipc.StateStore.All | internal/ipc/server.go:50-58 | lists each entry exactly once, in the map's order |
| DaemonModel.AddStepCases | internal/daemon/daemon.go:109-175 | an add takes effect in all stores or in none but the drop-in directory |
| DaemonModel.AddKeepsInv | internal/daemon/daemon.go:109-175 | an add keeps the four stores and the proxies in agreement under every failure |
| DaemonModel.RemoveKeepsInv | internal/daemon/daemon.go:177-188 | a removal keeps the stores in agreement under every failure |
| DaemonModel.CurrentLastWins | internal/daemon/daemon.go:91-94 | of several forwards scanned on one port the last one counts |
| DaemonModel.AddStepsSafe | internal/daemon/daemon.go:122-151 | after every effect inside an add, running proxies have distinct, allocated addresses |
| DaemonModel.RemoveStepsSafe | internal/daemon/daemon.go:177-186 | the same inside a removal: the proxy stops before its address is freed |
| DaemonModel.RunInv | internal/daemon/daemon.go:84-188 | in every reachable state used addresses, active entries, store and proxies agree |
| DaemonModel.RunSafe | internal/daemon/daemon.go:84-188 | at every intermediate step of every run no proxy listens on a freed address and no two on one address |
| DaemonModel.CleanupSafe | internal/daemon/daemon.go:177-195 | the same at every intermediate step of shutdown |
| DaemonModel.AddressConservation | internal/daemon/daemon.go:122-136 | the used bytes are the active addresses, as many as active entries, at most 254 |
| DaemonRuns.PollActive | internal/daemon/daemon.go:102-106 | the remove loop leaves exactly the entries that were scanned, unchanged, whatever fails |
| DaemonRuns.PollBounds | internal/daemon/daemon.go:84-107 | after a poll only scanned ports are active and no scanned active entry has changed |
| DaemonRuns.NoChurn | internal/daemon/daemon.go:84-107 | along a run, an entry whose port stays in every successful scan keeps address, name, proxy and store entry |
| DaemonOrigin.AddShows | internal/daemon/daemon.go:138-168 | an added entry shows its forward field by field, is named after it, and its proxy serves it under the configured port |
| DaemonOrigin.EveryEntryHasOrigin | internal/daemon/daemon.go:84-175 | every active entry of every run shows, and is named after, the forward of an earlier poll, since which every successful scan has had its port |
| DaemonNames.RunLabelled | internal/daemon/daemon.go:109-120 | every active domain is a well-formed label under the TLD |
| DaemonNames.AddKeepsNamed | internal/daemon/daemon.go:109-120 | an add whose name is not truncated keeps all names distinct |
| DaemonNames.DomainsDistinct | internal/daemon/daemon.go:84-120 | in every reachable state active domains are pairwise distinct if no generated name was truncated |
| DaemonNames.ShortIdentifiersDistinct | internal/daemon/daemon.go:84-120 | the same under a bound on the scanned identifiers alone |
| DaemonDistinct.NoClashDistinct | internal/daemon/daemon.go:84-120 | in every reachable state, truncation allowed, active domains are pairwise distinct if no scanned forward can find both its plain name and its fallback in use |
| DaemonDistinct.LongNamesClash | internal/daemon/daemon.go:84-120 | in every reachable state, active forwards that share a plain name of more than 61 bytes share their domain |
| DaemonWitness.AddPhaseNames | internal/daemon/daemon.go:96-120 | the add loop of an empty daemon hands out names in the order in which the map is ranged over |
| DaemonWitness.FirstPoll | internal/daemon/daemon.go:84-120 | for any forwards that fit the pool there is a run whose first poll makes them all active under these names |
| DaemonCutoff.AlwaysDistinctIff | internal/daemon/daemon.go:84-120 | for any forwards whatever, domains are distinct in every state of every run if and only if no clash can be derived from their names by adding forwards one at a time beside at most two others, or the TLD is rejected |
| DaemonTargets.FlatDistinctIff | internal/daemon/daemon.go:84-120 | for any family in which no fallback is another target's plain name, this is so if and only if no two forwards share a plain name too long for a suffix, or have equal fallbacks that both can get at once |
| DaemonTargets.UntruncatedFallback | internal/domain/domain.go:20-24 | an untruncated fallback is never an untruncated plain name |
| DaemonTargets.OneTargetDistinctIff | internal/daemon/daemon.go:84-120 | for any forwards to one target, domains are distinct in every state of every run if and only if a suffix fits and, from three forwards on, the digits that fit tell all ports apart |
| DaemonTargets.FirstPollDistinctIff | internal/daemon/daemon.go:84-120 | the first poll of a run, scanning forwards to one target, gives distinct domains if and only if a suffix fits and the digits that fit tell the ports after the first added apart |
| DaemonPairs.PairDistinctIff | internal/daemon/daemon.go:84-120 | in every reachable state of a run over two forwards with both active, their domains differ if and only if their plain names do or have at most 61 bytes |
| DaemonPairs.PairAlwaysDistinctIff | internal/daemon/daemon.go:84-120 | over all runs of any two forwards, domains are always distinct if and only if the same holds or the TLD is rejected |
| DaemonPairs.TruncationClashReachable | internal/daemon/daemon.go:84-120 | for every 57-letter host name there is a run whose first poll makes two forwards active under one domain |
| DaemonNames.AcceptedIff | internal/dnsmasq/manager.go:29-46 | the manager accepts a generated name and address if and only if the TLD is over the host name alphabet |
| DaemonNames.DefaultTldAccepted | internal/config/config.go:49 | under the default TLD every generated name is accepted |
| DaemonConvergence.OnePollConvergesIff | internal/daemon/daemon.go:84-107 | one poll reaches the scanned ports if and only if they fit the pool together with the active ones |
| DaemonConvergence.RunConvergesIff | internal/daemon/daemon.go:84-107 | the same from every reachable state |
| DaemonConvergence.TwoPollsConverge | internal/daemon/daemon.go:84-107 | two polls of one scan that fits the pool reach it, whatever happened in the first |
| DaemonConvergence.SteadyState | internal/daemon/daemon.go:84-107 | once reached, further polls of the same ports change nothing |
| DaemonConvergence.FullPoolDelaysOnePoll | internal/daemon/daemon.go:96-106 | a full pool that turns over keeps a new port out for exactly one poll |
| DaemonConvergence.CleanupEmpties | internal/daemon/daemon.go:190-195 | shutdown empties active map, store and pool and stops every proxy, whatever dnsmasq does |
| DaemonDns.ActiveIsServed | internal/daemon/daemon.go:132-168 | if only reloads and binds fail, every active entry's state file is its line, that line is in the hosts file, and its first field reads back as the address the entry's proxy listens on |
| DaemonDns.AddKeepsExactIff | internal/daemon/daemon.go:132-136 | an add keeps the state files equal to the active entries if and only if the reload succeeds or the add fails before writing |
| DaemonDns.FailedReloadLeavesLine | internal/daemon/daemon.go:132-136 | a failed reload leaves the line served and the address free |
| DaemonStale.ExactIffNothingStale | internal/daemon/daemon.go:132-136 | over all runs with working file operations, whatever reloads do, the state files are those of the active entries and the stale records, and exactly the active ones if and only if nothing is stale |
| DaemonStale.HostsAreActiveAndStale | internal/daemon/daemon.go:84-188 | and the hosts file reads back as exactly these records, so as exactly the active entries if and only if nothing is stale |
| DaemonStale.NothingStaleIfReloaded | internal/daemon/daemon.go:132-136 | which is so in particular if no reload after adding has failed |
| DaemonStale.StaleIff | internal/daemon/daemon.go:132-136 | a port is stale if and only if some poll wrote its files without reloading and it has never been active since |
| DaemonStale.StaleHeals | internal/daemon/daemon.go:96-100 | a stale port that is scanned again, with its own reload succeeding and room in the pool, becomes active and is stale no more, whatever happens to other ports |
| DaemonStale.StaleStays | internal/daemon/daemon.go:102-106 | a stale port that is no longer scanned stays stale with the same record |
| DaemonStale.StaleAddressReused | internal/daemon/daemon.go:122-136 | the next successful add takes the stale record's address, and the hosts file has both lines for it |
| DaemonStale.CleanupLeavesStaleLines | internal/daemon/daemon.go:190-195 | shutdown leaves exactly the stale records in the hosts file, which ends empty if and only if nothing is stale |
| DaemonStale.ShutdownLeavesStale | internal/daemon/daemon.go:60-82 | the same over whole runs in which any reloads may fail |
| DaemonDns.CleanupLeavesStale | internal/daemon/daemon.go:190-195 | shutdown removes exactly the active entries' state files, so none is left if and only if each belonged to an active entry |
| Daemon.Daemon.constructor | internal/daemon/daemon.go:40-58 | a new daemon is in an initial state of the machine |
| Daemon.Daemon.CollectNames | internal/daemon/daemon.go:111-118 | collects the labels of all active entries |
| Daemon.Daemon.Add | internal/daemon/daemon.go:109-175 | the sequence of shared states is that of the state machine |
| Daemon.Daemon.Remove | internal/daemon/daemon.go:177-188 | the sequence of shared states is that of the state machine |
| Daemon.Daemon.CollectCurrent | internal/daemon/daemon.go:91-94 | the scan by port, the last duplicate winning |
| Daemon.Daemon.AddMissing | internal/daemon/daemon.go:96-100 | the add loop visits each scanned port exactly once, in an order that explains its effects |
| Daemon.Daemon.RemoveStale | internal/daemon/daemon.go:102-106 | the remove loop visits each active port exactly once although it deletes from the map it ranges over |
| Daemon.Daemon.Poll | internal/daemon/daemon.go:84-107 | a poll is one event of the state machine |
| Daemon.Daemon.Cleanup | internal/daemon/daemon.go:190-195 | terminates, having visited every active entry exactly once, through the shutdown steps of the state machine |
| Daemon.Daemon.PollAll | internal/daemon/daemon.go:71-81 | the states between polls form a run |
| Daemon.Daemon.Run | internal/daemon/daemon.go:60-82 | polls with the given scans and outcomes form a run; shutdown then visits every active entry once, and the final state and every step are those of the state machine; every store ends empty and no proxy runs; without the server nothing happens |
| Scanner.IsSSHCombinedLFlag | internal/scanner/scanner.go:76-87 | true of an ASCII token exactly if it is a dash and letters with an L among them, other than -L |
| Scanner.ParseSSHInfo | internal/scanner/scanner.go:54-73 | the first flag whose specification yields a positive remote port decides |
| Scanner.ParseKubectlInfo | internal/scanner/scanner.go:112-126 | resource of the first port-forward token that has a successor, and the number in the leftmost pair match |
| Scanner.PairAtIff | internal/scanner/scanner.go:121 | matching only the whole digit run finds a match where the pattern has one, with the same group |
| Scanner.RemotePortNonNegative | internal/scanner/scanner.go:31-39 | parsed remote ports are never negative |
| Scanner.ClassifySSHIff | internal/scanner/scanner.go:27-44 | a line is taken for ssh exactly if it has ssh in it, in any case, and a dash followed by letters the last of which is L |
| Scanner.ClassifyKubectlIff | internal/scanner/scanner.go:47-50 | a line is taken for kubectl exactly if it has kubectl and port-forward in it, in any case |
| Scanner.SpecRejected | internal/scanner/scanner.go:92-107 | a specification without two or three colons forwards nothing |
| CommandLine.SpecReads | internal/scanner/scanner.go:91-108 | a printed specification reads back exactly if the local port is its own |
| CommandLine.SshRoundTrip | internal/scanner/scanner.go:54-108 | parsing a printed ssh command line gives the first forward on the local port, or nothing, for all three flag shapes |
| CommandLine.ParserWithinClassifier | internal/scanner/scanner.go:42-73 | whatever yields a positive port for an ASCII line mentioning ssh is also classified as ssh |
| CommandLine.SshClassified | internal/scanner/scanner.go:42-44 | every printed ssh command line with a forward is classified as ssh |
| KubectlLine.FindInLine | internal/scanner/scanner.go:121-124 | a match never spans tokens, so the first token with a match decides |
| KubectlLine.PairTokenFind | internal/scanner/scanner.go:121 | in a token a:b only the whole of a matches: 8080 is not found in 18080:80 |
| KubectlLine.SurroundedPair | internal/scanner/scanner.go:121 | inside a longer text a pair is found exactly if no letter, digit or underscore touches it |
| Scanner.WordCharacters | internal/scanner/scanner.go:121 | which characters make a word |
| KubectlLine.ResourceNamed | internal/scanner/scanner.go:129-134 | the kind before the first slash is dropped, and a name without one is left alone |
| KubectlLine.KubectlRoundTrip | internal/scanner/scanner.go:112-134 | parsing a printed kubectl command line, with kind/name or a bare name, gives the name and the remote port of the first pair for the local port |
| KubectlLine.RemoteInfo | internal/scanner/scanner.go:31-39 | ssh lines give host and port, kubectl lines port and resource, other tools nothing |
| KubectlLine.KubectlClassified | internal/scanner/scanner.go:47-50 | every printed kubectl command line is classified as kubectl |
| Proxy.RunKeepsInv | internal/proxy/proxy.go:47-90 | every interleaving of all parties keeps the protocol invariant |
| Proxy.StartOutcomes | internal/proxy/proxy.go:47-62 | a start that can bind listens, runs the accept loop and counts it; one that cannot changes nothing |
| Proxy.StartedServes | internal/proxy/proxy.go:47-62 | every run from a started proxy is one from a new proxy that began with that start |
| Proxy.ServesFrom | internal/proxy/proxy.go:76-90 | from then on it can accept, and each accepted connection is counted, until an Accept fails or a Stop closes the listener |
| Proxy.UnstartedNeverServes | internal/proxy/proxy.go:47-74 | without a successful start it never listens or serves, and can still be stopped |
| Proxy.CountersAfter | internal/proxy/proxy.go:47-90 | connections, closings, callers, wait group and log lines are counted by the steps of the run that add to them |
| Proxy.FlagsAfter | internal/proxy/proxy.go:47-90 | quit is closed, the once done and the loop over exactly if a step of the run said so |
| Proxy.ListenerAfter | internal/proxy/proxy.go:64-74 | the listener of a started proxy is closed exactly if a Stop has closed it |
| Proxy.ReturnedAfter | internal/proxy/proxy.go:64-74 | a Stop has returned exactly if its last step was taken |
| Proxy.FailureCause | internal/proxy/proxy.go:78-80 | an Accept fails because of a Stop exactly if one has closed the listener |
| Proxy.SelectDecides | internal/proxy/proxy.go:80-87 | the loop logs the error it failed with if quit is still open as it looks, and nothing otherwise |
| Proxy.NothingLoggedAfterStop | internal/proxy/proxy.go:80-87 | once a Stop has closed quit no failure is logged |
| Proxy.ShutdownSafe | internal/proxy/proxy.go:64-90 | after any interleaving: quit closed at most once and before the listener, an error caused by closing never logged, a Stop returned only after the accept loop is over |
| Proxy.InternalStepsBounded | internal/proxy/proxy.go:64-90 | every run has at most five steps per Stop and four per Start besides connections and calls |
| Proxy.NoDeadlock | internal/proxy/proxy.go:64-90 | while some Stop has not returned, the program has a step of its own to take |
| Proxy.AtRest | internal/proxy/proxy.go:64-90 | when it has none left, every Stop has returned and, after a Stop, the accept loop is over |
| ConfFile.Conf.EnsureConf | internal/dnsmasq/setup_linux.go:145-163 | appends the directive unless some line matches it; result and text for every failure |
| ConfFile.Conf.RemoveLine | internal/dnsmasq/setup_linux.go:111-125 | the loop keeps exactly the lines that do not match; unchanged after a failure |
| ConfFile.Conf.Setup | internal/dnsmasq/setup_linux.go:45-58 | ensures the four directives in turn, or exactly those before the first call that fails |
| ConfFile.Conf.Teardown | internal/dnsmasq/setup_linux.go:94-99 | removes those of the four directives whose removal does not fail |
| ConfFile.KeepExact | internal/dnsmasq/setup_linux.go:116-121 | the kept lines are exactly the lines that match no directive |
| ConfFile.KeepsOrder | internal/dnsmasq/setup_linux.go:116-121 | a line that does not match is kept, after those kept from the lines before it |
| ConfFile.RemovalExact | internal/dnsmasq/setup_linux.go:111-125 | the file's lines after a removal are the kept ones; a matching line is left exactly if the directive is blank and no line is kept |
| ConfFile.RemovedInOnePass | internal/dnsmasq/setup_linux.go:96-99 | removals one after another equal one pass that drops all their lines, so their order does not matter |
| ConfFile.EnsureIdempotent | internal/dnsmasq/setup_linux.go:145-163 | after ensuring a directive it is there, and ensuring it again changes nothing |
| ConfFile.IndentedDirective | internal/dnsmasq/setup_linux.go:145-163 | a directive that is there with white space around it is not added again, and is removed |
| ConfFile.ConfDirText | internal/dnsmasq/setup_linux.go:51 | the directive with the drop-in directory spelled out |
| ConfFile.AddnHostsText | internal/dnsmasq/setup_linux.go:55-56 | the directive with the hosts file spelled out |
| ConfFile.TeardownUndoes | internal/dnsmasq/setup_linux.go:45-99 | removing a list that covers the ensured directives gives the file back with one newline for each |
| ConfFile.TeardownUndoesIff | internal/dnsmasq/setup_linux.go:45-99 | for any one-line directives, removed in any order, this holds if and only if they are not blank, not in the file and pairwise different |
| ConfFile.SetupTeardownIff | internal/dnsmasq/setup_linux.go:45-99 | for the four directives of this program, if and only if none was in the file |
| ConfFile.PartialSetupTeardown | internal/dnsmasq/setup_linux.go:45-99 | teardown also undoes a setup that stopped half way |

## Left out

- Dnsmasq.Manager.Add: names, addresses and the contents of state files are ASCII text; elsewhere `strings.TrimSpace` also strips white space outside ASCII.
- Domain.Sanitize: ASCII text only. The source keeps non-ASCII letters and truncates by bytes, and the manager then rejects the name.
- Scanner.IsSSHCombinedLFlag: ASCII tokens only; the source also takes letters outside ASCII.
- Scanner.ParseSSHInfo: ASCII command lines only.
- Scanner.ParseKubectlInfo: ASCII command lines only.
- CommandLine.SshRoundTrip: ASCII tokens only.
- CommandLine.SshClassified: ASCII tokens only.
- CommandLine.ParserWithinClassifier: ASCII command lines only; for a combined flag with a letter outside ASCII, such as `-éL`, the source's parser yields a port and its classifier says no.
- KubectlLine.KubectlRoundTrip: ASCII tokens only.
- ConfFile.Conf.EnsureConf: trimming is that of ASCII white space, and an append or overwrite happens whole or not at all.
- Daemon.Daemon.Run: the ticker and the context are replaced by the list of scans, and the daemon stops after the last one; what the server serves is not modelled.
- Ipc.StateStore.All: the lock is not modelled; each method is one atomic step.
- Proxy.ShutdownSafe: the goroutines are modelled as interleaved steps over one state instead of methods of a class, because no sequential method body shows the interleavings; `Start` is one step, since nobody else holds the proxy yet.
- Proxied connections: copying bytes, TLS, and dialling the tunnel. They are not in the wait group, so `Stop` does not wait for them, and nothing here says it does.
- The daemon's proxies are a set of running listeners; that `Stop` returns only when the listener is gone is proved in `Proxy.dfy` and used as one step.
- Files are written whole or not at all, and nobody else writes to the drop-in directory while the daemon runs.
- Scanning sockets and processes (`lsof`, `ss`, `/proc`, `ps`): a scan is any sequence of forwards, or an error.
- General regular expressions: the three patterns used are written as predicates.
- Loading, saving and overriding the configuration, the HTTP interface, logging, process ids, time stamps and command lines in entries.
- Network aliases, certificates, service units, sudo rules, split DNS, and the macOS setup, whose line removal repeats the Linux one.
